/** What outside cancellation does to the reported status, in the whole engine.  A run in which
    only tasks under `continue` are cancelled, and nothing fails, ends in a report that says
    succeeded.  This module builds such runs and says exactly which workflows have one. */
module EngineCancellation {
  import opened Values
  import opened Graphs
  import opened Workflows
  import opened Spans
  import Scheduling
  import SI = SchedulerInvariant
  import SP = SchedulerProperties
  import MainLoop
  import TaskExecution
  import Templates
  import opened Confluence
  import opened Engine
  import opened EngineInvariant
  import opened EngineRuns
  import opened EngineProgress
  import opened EngineConfluence

  // ---------- starting and succeeding ----------

  /** With these results in view the task's inputs resolve and it may make an attempt. */
  ghost predicate Starts(w: World, id: Id, seen: map<Id, Value>)
    requires id in G(w)
  {
    && Templates.Resolve(Obj(TaskOf(w, id).inputs), TaskExecution.ScopeOf(w.inputs, seen), w.json).Some?
    && MaxRetries(w, id) >= 0
  }

  /** With these results in view the task is ready for a plan that cancels the tasks of `cut` and
      no others: those can wait for their first permit, the others succeed. */
  ghost predicate Fits(w: World, cut: set<Id>, id: Id, seen: map<Id, Value>) {
    id in G(w) && if id in cut then Starts(w, id, seen) else SpanIn(w, id, seen).status.Succeeded?
  }

  /** A goroutine that is to be cancelled gets no further than its first permit. */
  predicate Held(k: Worker) {
    match k.pc
    case Start => true
    case WantPermit(_) => true
    case Sending => k.span.status.Skipped?
    case Sent => k.span.status.Skipped?
    case _ => false
  }

  ghost predicate OnPlan(w: World, cut: set<Id>, id: Id, k: Worker) {
    Fits(w, cut, id, k.seen) && if id in cut then Held(k) else OnTrack(w, id, k)
  }

  /** The plan so far: nothing has failed, the tasks that are cut have not come back succeeded, and
      once the run is cancelled only they are left. */
  ghost predicate Planned(w: World, cut: set<Id>, s: Sys) {
    && !s.main.runFailed
    && (forall id :: id in s.workers ==> OnPlan(w, cut, id, s.workers[id]))
    && PlannedSpans(cut, s.main.spans)
    && (s.cancelled ==> s.main.ready == {} && s.workers.Keys <= cut)
  }

  ghost predicate PlannedSpans(cut: set<Id>, spans: map<Id, Span>) {
    forall id :: id in spans ==> !spans[id].status.Failed? && (id in cut ==> spans[id].status.Skipped?)
  }

  /** Whatever the plan dispatches fits it. */
  ghost predicate PlanWorks(w: World, cut: set<Id>) {
    forall tr: seq<Sys>, acts: seq<Action>, id ::
      Run(w, tr, acts) && Planned(w, cut, tr[|acts|]) && Enabled(w, tr[|acts|], Dispatch(id)) ==>
        Fits(w, cut, id, tr[|acts|].main.results)
  }

  // ---------- one step of a plan ----------

  lemma CutMoves(w: World, cut: set<Id>, id: Id, k: Worker, m: Move)
    requires id in cut && OnPlan(w, cut, id, k) && CanMove(w, id, k, m)
    requires m.ResolveInputs? || m.QuitAtPermit? || m.Send?
    ensures OnPlan(w, cut, id, Moved(w, id, k, m))
  {
    hide DependencyGraph, SpanIn, Templates.Resolve, TaskExecution.ScopeOf, UsesProvider;
  }

  lemma OthersMove(w: World, cut: set<Id>, id: Id, k: Worker, m: Move)
    requires id !in cut && OnPlan(w, cut, id, k) && CanMove(w, id, k, m) && !Quits(m)
    requires k.span.id == id
    ensures OnPlan(w, cut, id, Moved(w, id, k, m))
  {
    MoveOnTrack(w, id, k, m);
    MoveKeeps(w, id, k, m);
    hide OnTrack, DependencyGraph, SpanIn, Moved;
  }

  lemma WorkPlanned(w: World, cut: set<Id>, s: Sys, id: Id, m: Move)
    requires EInv(w, s) && Planned(w, cut, s) && Enabled(w, s, Work(id, m))
    requires if id in cut then m.ResolveInputs? || m.QuitAtPermit? || m.Send? else !Quits(m)
    ensures Planned(w, cut, Apply(w, s, Work(id, m)))
  {
    hide *;
    WorkEnabled(w, s, id, m);
    WorkApply(w, s, id, m);
    var k := s.workers[id];
    OwnSpan(w, s, id);
    PlanAt(w, cut, s, id);
    if id in cut { CutMoves(w, cut, id, k, m); } else { OthersMove(w, cut, id, k, m); }
    WorkMoves(w, s, id, m);
    StillPlanned(w, cut, s, WorkStep(w, s, id, m), id);
  }

  lemma StillPlanned(w: World, cut: set<Id>, s: Sys, t: Sys, id: Id)
    requires Planned(w, cut, s) && id in s.workers && t.main == s.main && t.cancelled == s.cancelled
    requires id in t.workers && t.workers == s.workers[id := t.workers[id]] && OnPlan(w, cut, id, t.workers[id])
    ensures Planned(w, cut, t)
  {
    hide OnPlan, PlannedSpans;
  }

  lemma OwnSpan(w: World, s: Sys, id: Id)
    requires EInv(w, s) && id in s.workers
    ensures s.workers[id].span.id == id && s.workers[id].seen == s.main.inFlight[id] && id in s.main.inFlight
  {
    hide SI.Inv;
  }

  lemma DispatchPlanned(w: World, cut: set<Id>, s: Sys, id: Id)
    requires EInv(w, s) && Planned(w, cut, s) && Enabled(w, s, Dispatch(id)) && Fits(w, cut, id, s.main.results)
    ensures Planned(w, cut, Apply(w, s, Dispatch(id)))
  {
    hide SpanIn, G, Starts, EInv, C;
  }

  /** The span at the head of the channel comes from a goroutine that kept to the plan. */
  lemma HeadPlanned(w: World, cut: set<Id>, s: Sys)
    requires EInv(w, s) && Planned(w, cut, s) && s.done != []
    ensures var span := s.done[0];
            span.status == if span.id in cut then Skipped else Succeeded
    ensures s.done[0].id in s.workers
  {
    hide *;
    HeadMatches(w, s);
    var id := s.done[0].id;
    OwnSpan(w, s, id);
    PlanAt(w, cut, s, id);
    SentPlanned(w, cut, id, s.workers[id]);
  }

  lemma PlanAt(w: World, cut: set<Id>, s: Sys, id: Id)
    requires Planned(w, cut, s) && id in s.workers
    ensures OnPlan(w, cut, id, s.workers[id])
  {
    hide OnPlan, PlannedSpans;
  }

  lemma SentPlanned(w: World, cut: set<Id>, id: Id, k: Worker)
    requires OnPlan(w, cut, id, k) && k.pc.Sent?
    ensures k.span.status == if id in cut then Skipped else Succeeded
  {
    hide SpanIn, G, Starts;
  }

  /** Taking a planned span: successes go on, and the cut tasks are under `continue`. */
  lemma TakePlanned(c: Scheduling.Config, cut: set<Id>, m: Scheduling.State, span: Span)
    requires SI.Inv(c, m) && PlannedSpans(cut, m.spans) && !m.runFailed && cut !! c.failFast
    requires Scheduling.Enabled(c, m, Scheduling.Receive(span))
    requires span.status == if span.id in cut then Skipped else Succeeded
    ensures var t := Scheduling.Apply(c, m, Scheduling.Receive(span));
            && PlannedSpans(cut, t.spans) && !t.runFailed
            && (span.id in cut ==> t.ready == m.ready)
  {
    hide DependsOn, Scheduling.Released, Scheduling.NewlyReady, Contribution, SI.Inv;
  }

  lemma PlannedRunning(w: World, s: Sys)
    requires EInv(w, s) && !s.main.runFailed
    ensures !s.main.phase.Draining?
  {
    hide SI.Partition, SI.ResultsMatch, SI.CountsExact, SI.StartedIffZero, SI.SkipClosed, SI.SkippedBlocked, SI.SnapshotsOk;
  }

  lemma ReceivePlanned(w: World, cut: set<Id>, s: Sys)
    requires EInv(w, s) && Planned(w, cut, s) && cut !! MainLoop.FatalIds(w.wf) && Enabled(w, s, Receive)
    ensures Planned(w, cut, Apply(w, s, Receive))
  {
    ReceiveNeedsSpan(w, s);
    HeadPlanned(w, cut, s);
    TakingIsReceive(w, s);
    MainWorkers(w, s, Receive);
    assert SI.Inv(C(w), s.main) && C(w).failFast == MainLoop.FatalIds(w.wf);
    hide EInv, OnPlan, PlannedSpans, SI.Inv, C, Scheduling.Apply, Scheduling.Enabled;
    TakePlanned(C(w), cut, s.main, s.done[0]);
  }

  lemma TakingIsReceive(w: World, s: Sys)
    requires EInv(w, s) && !s.main.runFailed && Enabled(w, s, Receive)
    ensures s.done != [] && Taking(s) == Scheduling.Receive(s.done[0])
    ensures Scheduling.Enabled(C(w), s.main, Scheduling.Receive(s.done[0]))
    ensures Apply(w, s, Receive).main == Scheduling.Apply(C(w), s.main, Scheduling.Receive(s.done[0]))
    ensures Apply(w, s, Receive).cancelled == (s.cancelled || Apply(w, s, Receive).main.runFailed)
  {
    PlannedRunning(w, s);
    hide EInv, C, Scheduling.Apply;
  }

  lemma CompletePlanned(w: World, cut: set<Id>, s: Sys)
    requires Planned(w, cut, s) && Enabled(w, s, Complete)
    ensures Planned(w, cut, Apply(w, s, Complete))
  {
    hide OnPlan, C;
  }

  lemma CancelPlanned(w: World, cut: set<Id>, s: Sys)
    requires Planned(w, cut, s) && s.main.ready == {} && s.workers.Keys <= cut
    ensures Planned(w, cut, Apply(w, s, Cancel)) && Apply(w, s, Cancel).cancelled
    ensures Apply(w, s, Cancel) == s.(cancelled := true)
  {
    hide OnPlan;
  }

  lemma TickPlanned(w: World, cut: set<Id>, s: Sys, dt: real)
    requires Planned(w, cut, s) && dt >= 0.0
    ensures Planned(w, cut, s.(now := s.now + dt))
  {
    hide OnPlan;
  }

  /** What the plan allows next: goroutines move on, except that the cut ones wait for their first
      permit; then the run is cancelled, and those give up.  Nothing is called after that. */
  ghost predicate PlanStep(cut: set<Id>, s: Sys, a: Action) {
    match a
    case Dispatch(_) => !s.cancelled
    case Receive => true
    case EndDrain => false
    case Complete => true
    case Cancel => !s.cancelled && s.main.ready == {} && s.workers.Keys <= cut
    case Tick(_) => false
    case Work(id, m) =>
      && !m.PollGlobal? && !m.PollProvider? && (s.cancelled ==> !m.Call?)
      && if id in cut then m.ResolveInputs? || m.QuitAtPermit? || m.Send? else !Quits(m)
  }

  /** A goroutine that has only its first permit to wait for, and is not to get it. */
  predicate Parked(cut: set<Id>, id: Id, k: Worker) {
    id in cut && k.pc.WantPermit?
  }

  lemma ForwardOnPlan(w: World, cut: set<Id>, s: Sys, id: Id)
    requires Planned(w, cut, s) && id in s.workers && !s.workers[id].pc.Sent? && !Parked(cut, id, s.workers[id])
    ensures PlanStep(cut, s, Work(id, Forward(s.workers[id].pc)))
    ensures id in cut ==> !HoldsPermit(s.workers[id].pc)
  {
    hide *;
    PlanAt(w, cut, s, id);
    ForwardAllowed(w, cut, id, s.workers[id]);
    CancelledCuts(w, cut, s, id);
    ForwardIsStep(cut, s, id, Forward(s.workers[id].pc));
  }

  lemma ForwardAllowed(w: World, cut: set<Id>, id: Id, k: Worker)
    requires OnPlan(w, cut, id, k) && !k.pc.Sent? && !Parked(cut, id, k)
    ensures var m := Forward(k.pc);
            && !m.PollGlobal? && !m.PollProvider?
            && (if id in cut then m.ResolveInputs? || m.Send? else !Quits(m))
    ensures id in cut ==> !HoldsPermit(k.pc)
  {
    hide OnTrack, Fits;
  }

  lemma CancelledCuts(w: World, cut: set<Id>, s: Sys, id: Id)
    requires Planned(w, cut, s) && id in s.workers
    ensures s.cancelled ==> id in cut
  {
    hide OnPlan, PlannedSpans;
  }

  lemma ForwardIsStep(cut: set<Id>, s: Sys, id: Id, m: Move)
    requires !m.PollGlobal? && !m.PollProvider? && (s.cancelled ==> id in cut)
    requires if id in cut then m.ResolveInputs? || m.Send? else !Quits(m)
    ensures PlanStep(cut, s, Work(id, m))
  {
  }

  /** Someone who is not parked can move. */
  lemma MoverOnPlan(w: World, cut: set<Id>, s: Sys, id: Id) returns (dt: real, a: Action)
    requires Sensible(w) && UniqueIds(w.wf.tasks) && EInv(w, s) && LimitersOk(w, s) && Planned(w, cut, s) && s.done == []
    requires id in s.workers && !Parked(cut, id, s.workers[id])
    ensures dt >= 0.0 && Enabled(w, s.(now := s.now + dt), a) && PlanStep(cut, s, a) && Productive(a)
  {
    hide Sensible, UniqueIds, EInv, LimitersOk, Planned, Enabled, PlanStep, Parked, HoldsPermit, Productive, NothingLost;
    var h := id;
    if x :| x in Holders(s.workers) {
      h := x;
      HoldersUnparked(cut, s, h);
    } else {
      ManyPermits(w);
      NoOneHolds(w, s);
    }
    LosesNothing(w, s);
    if s.workers[h].pc.Sent? { ChannelShowsSent(s, h); }
    ForwardOnPlan(w, cut, s, h);
    var m;
    dt, m := GoroutineMoves(w, s, h);
    a := Work(h, m);
    UsefulIsProductive(a);
  }

  lemma HoldersUnparked(cut: set<Id>, s: Sys, id: Id)
    requires id in Holders(s.workers)
    ensures id in s.workers && HoldsPermit(s.workers[id].pc) && !Parked(cut, id, s.workers[id])
  {
  }

  /** When everyone left is parked: dispatch, cancel, give up, or leave the loop. */
  lemma ParkedStep(w: World, cut: set<Id>, s: Sys) returns (a: Action)
    requires EInv(w, s) && Planned(w, cut, s) && !s.main.phase.Finished?
    requires forall id :: id in s.workers ==> Parked(cut, id, s.workers[id])
    ensures Enabled(w, s, a) && PlanStep(cut, s, a) && (Productive(a) || (a.Cancel? && !s.cancelled))
  {
    hide *;
    PlannedPhase(w, cut, s);
    if id :| id in s.main.ready {
      a := Dispatch(id);
      DispatchStep(w, cut, s, id);
    } else if id :| id in s.workers {
      InFlightKnown(w, s, id);
      a := if s.cancelled then Work(id, QuitAtPermit(0)) else Cancel;
      QuitStep(w, cut, s, id);
      CancelStep(w, cut, s);
    } else {
      assert s.main.ready == {} && s.workers == map[];
      a := Complete;
      CompleteStep(w, cut, s);
    }
  }

  lemma PlannedPhase(w: World, cut: set<Id>, s: Sys)
    requires EInv(w, s) && Planned(w, cut, s) && !s.main.phase.Finished?
    ensures s.main.phase.Running? && (s.cancelled ==> s.main.ready == {})
  {
    hide OnPlan, PlannedSpans, EInv;
    PlannedRunning(w, s);
  }

  lemma DispatchStep(w: World, cut: set<Id>, s: Sys, id: Id)
    requires s.main.phase.Running? && id in s.main.ready && !s.cancelled
    ensures Enabled(w, s, Dispatch(id)) && PlanStep(cut, s, Dispatch(id)) && Productive(Dispatch(id))
  {
    hide C;
  }

  lemma QuitStep(w: World, cut: set<Id>, s: Sys, id: Id)
    requires id in s.workers && id in G(w) && Parked(cut, id, s.workers[id])
    ensures s.cancelled ==> Enabled(w, s, Work(id, QuitAtPermit(0))) && PlanStep(cut, s, Work(id, QuitAtPermit(0)))
    ensures Productive(Work(id, QuitAtPermit(0)))
  {
    hide G;
  }

  lemma CancelStep(w: World, cut: set<Id>, s: Sys)
    requires s.main.ready == {} && forall id :: id in s.workers ==> Parked(cut, id, s.workers[id])
    ensures Enabled(w, s, Cancel) && (!s.cancelled ==> PlanStep(cut, s, Cancel))
  {
  }

  lemma CompleteStep(w: World, cut: set<Id>, s: Sys)
    requires EInv(w, s) && s.main.phase.Running? && s.main.ready == {} && s.workers == map[]
    ensures Enabled(w, s, Complete) && PlanStep(cut, s, Complete) && Productive(Complete)
  {
    KeysAre(w, s);
    hide EInv, C;
    assert s.main.inFlight.Keys == {};
    assert s.main.inFlight == map[];
  }

  lemma KeysAre(w: World, s: Sys)
    requires EInv(w, s)
    ensures s.workers.Keys == s.main.inFlight.Keys
  {
    hide SI.Inv;
  }

  lemma NextOnPlan(w: World, cut: set<Id>, s: Sys) returns (dt: real, a: Action)
    requires Sensible(w) && UniqueIds(w.wf.tasks) && EInv(w, s) && LimitersOk(w, s) && Planned(w, cut, s)
    requires !s.main.phase.Finished?
    ensures dt >= 0.0 && Enabled(w, s.(now := s.now + dt), a) && PlanStep(cut, s, a)
    ensures Productive(a) || (a.Cancel? && !s.cancelled)
  {
    dt := 0.0;
    hide Sensible, UniqueIds, EInv, LimitersOk, Planned, Enabled, Parked;
    assert s.(now := s.now + 0.0) == s;
    if s.done != [] {
      TakeSpan(w, s);
      a := Receive;
    } else if id :| id in s.workers && !Parked(cut, id, s.workers[id]) {
      dt, a := MoverOnPlan(w, cut, s, id);
    } else {
      a := ParkedStep(w, cut, s);
    }
  }

  lemma StepPlanned(w: World, cut: set<Id>, s: Sys, a: Action)
    requires EInv(w, s) && Planned(w, cut, s) && cut !! MainLoop.FatalIds(w.wf)
    requires Enabled(w, s, a) && PlanStep(cut, s, a)
    requires a.Dispatch? ==> Fits(w, cut, a.id, s.main.results)
    ensures Planned(w, cut, Apply(w, s, a))
  {
    hide EInv, Planned, Enabled, Apply, Fits, MainLoop.FatalIds, Quits;
    match a {
      case Dispatch(id) => DispatchPlanned(w, cut, s, id);
      case Receive => ReceivePlanned(w, cut, s);
      case Complete => CompletePlanned(w, cut, s);
      case Cancel => CancelPlanned(w, cut, s);
      case Work(id, m) => WorkPlanned(w, cut, s, id, m);
    }
  }

  // ---------- a whole run on plan ----------

  predicate IsCall(a: Action) {
    a.Work? && a.move.Call?
  }

  /** No executor call comes after an outside cancellation. */
  ghost predicate QuietAfterCancel(acts: seq<Action>) {
    forall j, k :: 0 <= j < k < |acts| && acts[j].Cancel? ==> !IsCall(acts[k])
  }

  lemma {:induction false} CancelSticks(w: World, tr: seq<Sys>, acts: seq<Action>, j: nat, i: nat)
    requires Run(w, tr, acts) && j < i < |tr| && acts[j].Cancel?
    ensures tr[i].cancelled
    decreases i
  {
    assert StepAt(w, tr, acts, i - 1);
    if j < i - 1 {
      CancelSticks(w, tr, acts, j, i - 1);
      CancelledStays(w, tr[i - 1], acts[i - 1]);
    }
    hide Enabled;
  }

  lemma QuietExtend(w: World, tr: seq<Sys>, acts: seq<Action>, a: Action)
    requires Run(w, tr, acts) && QuietAfterCancel(acts) && (IsCall(a) ==> !tr[|acts|].cancelled)
    ensures QuietAfterCancel(acts + [a])
  {
    hide StepAt, Init, IsCall;
    forall j, k | 0 <= j < k < |acts + [a]| && (acts + [a])[j].Cancel? ensures !IsCall((acts + [a])[k]) {
      if k == |acts| { CancelSticks(w, tr, acts, j, |acts|); }
    }
  }

  /** How far a plan is from its end. */
  ghost function ToGo(w: World, order: seq<Id>, s: Sys): nat
    requires Covers(w, order)
  {
    Potential(w, order, s) + if s.cancelled then 0 else 1
  }

  /** One wait and one step of a plan. */
  lemma PlanOn(w: World, cut: set<Id>, tr: seq<Sys>, acts: seq<Action>, order: seq<Id>)
    returns (tr': seq<Sys>, acts': seq<Action>)
    requires Sensible(w) && UniqueIds(w.wf.tasks) && Covers(w, order) && cut !! MainLoop.FatalIds(w.wf)
    requires PlanWorks(w, cut) && Run(w, tr, acts) && Planned(w, cut, tr[|acts|]) && QuietAfterCancel(acts)
    requires !tr[|acts|].main.phase.Finished?
    ensures Run(w, tr', acts') && Planned(w, cut, tr'[|acts'|]) && QuietAfterCancel(acts')
    ensures ToGo(w, order, tr'[|acts'|]) < ToGo(w, order, tr[|acts|])
  {
    hide *;
    RunLength(w, tr, acts);
    var s := tr[|acts|];
    RunEInv(w, tr, acts, |acts|);
    RunLimiters(w, tr, acts, |acts|);
    var dt, a := NextOnPlan(w, cut, s);
    TickApplies(w, s, dt);
    RunExtend(w, tr, acts, Tick(dt));
    NotACall(Tick(dt));
    QuietExtend(w, tr, acts, Tick(dt));
    TickPlanned(w, cut, s, dt);
    StepPotential(w, order, s, Tick(dt));
    var u, tr1, acts1 := s.(now := s.now + dt), tr + [Apply(w, s, Tick(dt))], acts + [Tick(dt)];
    RunLength(w, tr1, acts1);
    RunEInv(w, tr1, acts1, |acts1|);
    SamePlanStep(cut, s, u, a);
    if a.Dispatch? { PlanFits(w, cut, tr1, acts1, a.id); }
    StepPlanned(w, cut, u, a);
    RunExtend(w, tr1, acts1, a);
    CallsUncancelled(cut, u, a);
    QuietExtend(w, tr1, acts1, a);
    StepPotential(w, order, u, a);
    CancelledStays(w, u, a);
    CancelCancels(w, u, a);
    ToGoIs(w, order, s);
    ToGoIs(w, order, Apply(w, u, a));
    tr', acts' := tr1 + [Apply(w, u, a)], acts1 + [a];
  }

  lemma ToGoIs(w: World, order: seq<Id>, s: Sys)
    requires Covers(w, order)
    ensures (forall id :: id in order ==> id in G(w)) && ToGo(w, order, s) == Potential(w, order, s) + if s.cancelled then 0 else 1
  {
    hide Potential, G;
  }

  lemma NotACall(a: Action)
    requires a.Tick?
    ensures !IsCall(a) && !Productive(a)
  {
  }

  lemma SamePlanStep(cut: set<Id>, s: Sys, u: Sys, a: Action)
    requires PlanStep(cut, s, a) && u == s.(now := u.now)
    ensures PlanStep(cut, u, a)
  {
  }

  lemma CallsUncancelled(cut: set<Id>, u: Sys, a: Action)
    requires PlanStep(cut, u, a)
    ensures IsCall(a) ==> !u.cancelled
  {
  }

  lemma CancelCancels(w: World, u: Sys, a: Action)
    requires Enabled(w, u, a)
    ensures a.Cancel? ==> Apply(w, u, a).cancelled
  {
    hide C;
  }

  lemma PlanFits(w: World, cut: set<Id>, tr: seq<Sys>, acts: seq<Action>, id: Id)
    requires PlanWorks(w, cut) && Run(w, tr, acts) && |tr| == |acts| + 1 && Planned(w, cut, tr[|acts|])
    requires Enabled(w, tr[|acts|], Dispatch(id))
    ensures Fits(w, cut, id, tr[|acts|].main.results)
  {
    hide Planned, Enabled, Fits, Run;
  }

  lemma {:induction false} PlanToEnd(w: World, cut: set<Id>, tr: seq<Sys>, acts: seq<Action>, order: seq<Id>)
    returns (tr': seq<Sys>, acts': seq<Action>)
    requires Sensible(w) && UniqueIds(w.wf.tasks) && Covers(w, order) && cut !! MainLoop.FatalIds(w.wf)
    requires PlanWorks(w, cut) && Run(w, tr, acts) && Planned(w, cut, tr[|acts|]) && QuietAfterCancel(acts)
    ensures Run(w, tr', acts') && Planned(w, cut, tr'[|acts'|]) && QuietAfterCancel(acts')
    ensures tr'[|acts'|].main.phase.Finished?
    decreases ToGo(w, order, tr[|acts|])
  {
    hide *;
    RunLength(w, tr, acts);
    if tr[|acts|].main.phase.Finished? {
      tr', acts' := tr, acts;
    } else {
      var tr1, acts1 := PlanOn(w, cut, tr, acts, order);
      tr', acts' := PlanToEnd(w, cut, tr1, acts1, order);
    }
  }

  /** An outside cancellation is among the steps. */
  ghost predicate SomeCancel(acts: seq<Action>) {
    exists i :: 0 <= i < |acts| && acts[i].Cancel?
  }

  /** A finished run, cancelled from outside, that reports success although every task of `cut` was
      skipped; no executor is called once the run is cancelled. */
  ghost predicate Lie(w: World, cut: set<Id>, tr: seq<Sys>, acts: seq<Action>) {
    && Run(w, tr, acts) && tr[|acts|].main.phase.Finished? && SomeCancel(acts) && QuietAfterCancel(acts)
    && SP.Status(tr[|acts|].main).Succeeded?
    && (forall x :: x in cut ==> x in tr[|acts|].main.spans && tr[|acts|].main.spans[x].status.Skipped?)
  }

  /** A plan that works and cuts something off makes a lie. */
  lemma PlanLies(w: World, cut: set<Id>) returns (tr: seq<Sys>, acts: seq<Action>)
    requires Sensible(w) && UniqueIds(w.wf.tasks) && cut !! MainLoop.FatalIds(w.wf)
    requires PlanWorks(w, cut) && cut <= G(w).Keys && cut != {}
    ensures Lie(w, cut, tr, acts)
  {
    hide *;
    var order := SomeCover(w);
    StartPlanned(w, cut);
    tr, acts := PlanToEnd(w, cut, [Init(w)], [], order);
    RunLength(w, tr, acts);
    EngineComplete(w, tr, acts);
    PlanEnds(w, cut, tr, acts);
    SkippedIsUntruthful(w, cut, tr[|acts|].main);
    if NeverCancelled(acts) { EngineStatusExact(w, tr, acts); }
    CancelThere(acts);
    LieIs(w, cut, tr, acts);
  }

  lemma SomeCover(w: World) returns (order: seq<Id>)
    requires Sensible(w)
    ensures Covers(w, order)
  {
    order := TopologicalOrder(G(w));
  }

  lemma StartPlanned(w: World, cut: set<Id>)
    ensures Run(w, [Init(w)], []) && Planned(w, cut, Init(w)) && QuietAfterCancel([])
  {
    hide OnPlan;
  }

  lemma PlanEnds(w: World, cut: set<Id>, tr: seq<Sys>, acts: seq<Action>)
    requires |tr| == |acts| + 1 && Planned(w, cut, tr[|acts|]) && tr[|acts|].main.spans.Keys == G(w).Keys && cut <= G(w).Keys
    ensures SP.Status(tr[|acts|].main).Succeeded?
    ensures forall x :: x in cut ==> x in tr[|acts|].main.spans && tr[|acts|].main.spans[x].status.Skipped?
  {
    hide OnPlan, G;
  }

  /** A report that says succeeded over a skipped task is not truthful. */
  lemma SkippedIsUntruthful(w: World, cut: set<Id>, m: Scheduling.State)
    requires cut != {} && cut <= G(w).Keys && SP.Status(m).Succeeded?
    requires forall x :: x in cut ==> x in m.spans && m.spans[x].status.Skipped?
    ensures !SP.Truthful(C(w), m)
  {
    var x :| x in cut;
    KnownConfig(w);
    hide C, G, SP.Status;
    assert x in m.spans && !m.spans[x].status.Succeeded?;
  }

  lemma KnownConfig(w: World)
    ensures C(w).g == G(w) && C(w).failFast == MainLoop.FatalIds(w.wf)
  {
  }

  lemma CancelThere(acts: seq<Action>)
    ensures !NeverCancelled(acts) ==> SomeCancel(acts)
  {
  }

  lemma LieIs(w: World, cut: set<Id>, tr: seq<Sys>, acts: seq<Action>)
    requires Run(w, tr, acts) && |tr| == |acts| + 1 && tr[|acts|].main.phase.Finished?
    requires SomeCancel(acts) && QuietAfterCancel(acts) && SP.Status(tr[|acts|].main).Succeeded?
    requires forall x :: x in cut ==> x in tr[|acts|].main.spans && tr[|acts|].main.spans[x].status.Skipped?
    ensures Lie(w, cut, tr, acts)
  {
  }
}
