/** Progress of the whole engine: main loop, permits, limiters and done channel cannot deadlock.
    In every reachable unfinished state something that brings the run nearer to its end can happen
    once the clock has advanced far enough, and such steps are bounded in number. */
module EngineProgress {
  import opened Graphs
  import opened Workflows
  import opened Spans
  import Scheduling
  import SI = SchedulerInvariant
  import SP = SchedulerProperties
  import TaskExecution
  import Templates
  import Buckets
  import opened Confluence
  import opened Engine
  import opened EngineInvariant
  import opened EngineRates

  /** Everything but the clock, outside cancellation and polls that are refused. */
  predicate Productive(a: Action) {
    match a
    case Tick(_) => false
    case Cancel => false
    case Work(_, m) => !m.PollGlobal? && !m.PollProvider?
    case _ => true
  }

  /** A productive step that does not give up because of a cancellation. */
  predicate Useful(a: Action) {
    && Productive(a)
    && (a.Work? ==> !a.move.QuitAtPermit? && !a.move.QuitAtGlobal? && !a.move.QuitAtProvider?)
  }

  // ---------- a bound on productive steps ----------

  /** Ten for each attempt after number a. */
  function Later(w: World, id: Id, a: nat): nat
    requires id in G(w)
  {
    if a < MaxRetries(w, id) + 1 then 10 * (MaxRetries(w, id) + 1 - a) else 0
  }

  /** More than the moves a goroutine has left. */
  function MovesLeft(w: World, id: Id, pc: Pc): nat
    requires id in G(w)
  {
    match pc
    case Start => Later(w, id, 0) + 10
    case WantPermit(a) => Later(w, id, a) + 9
    case WantGlobal(a) => Later(w, id, a) + 8
    case WantProvider(a) => Later(w, id, a) + 7
    case MayCall(a) => Later(w, id, a) + 6
    case Calling(a) => Later(w, id, a) + 5
    case Backoff(a) => Later(w, id, a) + 4
    case Sending => 3
    case Sent => 1
  }

  /** What is left to do for one task. */
  function Left(w: World, s: Sys, id: Id): nat
    requires id in G(w)
  {
    if id in s.workers then MovesLeft(w, id, s.workers[id].pc)
    else if id in s.main.spans then 0
    else MovesLeft(w, id, Start) + 1
  }

  function SumLeft(w: World, order: seq<Id>, s: Sys): nat
    requires forall id :: id in order ==> id in G(w)
  {
    if order == [] then 0 else Left(w, s, order[0]) + SumLeft(w, order[1..], s)
  }

  function Potential(w: World, order: seq<Id>, s: Sys): nat
    requires forall id :: id in order ==> id in G(w)
  {
    SP.PhaseWeight(s.main.phase) + SumLeft(w, order, s)
  }

  /** Every move but a refused poll leaves fewer to come. */
  lemma MoveShortens(w: World, id: Id, k: Worker, m: Move)
    requires id in G(w) && CanMove(w, id, k, m)
    ensures MovesLeft(w, id, Moved(w, id, k, m).pc) <= MovesLeft(w, id, k.pc)
    ensures !m.PollGlobal? && !m.PollProvider? ==> MovesLeft(w, id, Moved(w, id, k, m).pc) < MovesLeft(w, id, k.pc)
  {
    hide Templates.Resolve, TaskExecution.AfterCall, MaxRetries, UsesProvider, DependencyGraph, TaskOf;
  }

  lemma WorkShortens(w: World, s: Sys, x: Id, m: Move, id: Id)
    requires id in G(w) && Enabled(w, s, Work(x, m))
    ensures var t := Apply(w, s, Work(x, m));
            && Left(w, t, id) <= Left(w, s, id) && t.main == s.main
            && (x == id && Productive(Work(x, m)) ==> Left(w, t, id) < Left(w, s, id))
  {
    WorkEnabled(w, s, x, m);
    WorkApply(w, s, x, m);
    hide Enabled, Apply, MovesLeft, Moved, PolledBuckets, CanMove, Resources, G;
    if x == id { MoveShortens(w, id, s.workers[id], m); }
  }

  lemma MainShortens(w: World, s: Sys, a: Action, id: Id)
    requires id in G(w) && EInv(w, s) && Enabled(w, s, a) && (a.Dispatch? || a.Receive? || a.EndDrain? || a.Complete?)
    ensures var t := Apply(w, s, a);
            && Left(w, t, id) <= Left(w, s, id)
            && (a == Dispatch(id) || (a.Receive? && s.done != [] && s.done[0].id == id) ==> Left(w, t, id) < Left(w, s, id))
  {
    hide *;
    MainAt(w, s, a, id);
    var t := Apply(w, s, a);
    if a == Dispatch(id) {
      LeftStarts(w, s, t, id);
    } else if a.Receive? && s.done != [] && s.done[0].id == id {
      LeftEnds(w, s, t, id);
    } else {
      LeftStays(w, s, t, id);
    }
  }

  lemma LeftStarts(w: World, s: Sys, t: Sys, id: Id)
    requires id in G(w)
    requires id !in s.workers && id !in s.main.spans && id in t.workers && t.workers[id] == NewWorker(id, s.main.results)
    ensures Left(w, t, id) < Left(w, s, id)
  {
    hide Later, G;
  }

  lemma LeftEnds(w: World, s: Sys, t: Sys, id: Id)
    requires id in G(w) && id in s.workers && s.workers[id].pc.Sent? && id !in t.workers && id in t.main.spans
    ensures Left(w, t, id) < Left(w, s, id)
  {
    hide Later, G;
  }

  lemma LeftStays(w: World, s: Sys, t: Sys, id: Id)
    requires id in G(w) && (id in t.workers <==> id in s.workers) && (id in s.workers ==> t.workers[id] == s.workers[id])
    requires id in s.main.spans ==> id in t.main.spans
    ensures Left(w, t, id) <= Left(w, s, id)
  {
    hide MovesLeft, G;
  }

  lemma {:induction false} SumFalls(w: World, order: seq<Id>, s: Sys, t: Sys)
    requires forall id :: id in order ==> id in G(w)
    requires forall id :: id in order ==> Left(w, t, id) <= Left(w, s, id)
    ensures SumLeft(w, order, t) <= SumLeft(w, order, s)
    decreases |order|
  {
    hide Left, G;
    if order != [] { SumFalls(w, order[1..], s, t); }
  }

  lemma {:induction false} SumFallsAt(w: World, order: seq<Id>, s: Sys, t: Sys, x: Id)
    requires (forall id :: id in order ==> id in G(w)) && x in order
    requires forall id :: id in order ==> Left(w, t, id) <= Left(w, s, id)
    requires Left(w, t, x) < Left(w, s, x)
    ensures SumLeft(w, order, t) < SumLeft(w, order, s)
    decreases |order|
  {
    hide Left, G;
    if order[0] == x {
      SumFalls(w, order[1..], s, t);
    } else {
      SumFallsAt(w, order[1..], s, t, x);
    }
  }

  ghost predicate Covers(w: World, order: seq<Id>) {
    forall id :: id in order <==> id in G(w)
  }

  lemma PhaseFalls(w: World, s: Sys, a: Action)
    requires Enabled(w, s, a)
    ensures SP.PhaseWeight(Apply(w, s, a).main.phase) <= SP.PhaseWeight(s.main.phase)
    ensures a.EndDrain? || a.Complete? ==> SP.PhaseWeight(Apply(w, s, a).main.phase) < SP.PhaseWeight(s.main.phase)
  {
    StepRefines(w, s, a);
    hide Apply, Enabled, C, Scheduling.Apply, Scheduling.Enabled;
    if MainAction(s, a).Some? { MainPhaseFalls(C(w), s.main, MainAction(s, a).value); }
  }

  lemma MainPhaseFalls(c: Scheduling.Config, m: Scheduling.State, b: Scheduling.Action)
    requires Scheduling.Enabled(c, m, b)
    ensures SP.PhaseWeight(Scheduling.Apply(c, m, b).phase) <= SP.PhaseWeight(m.phase)
    ensures b.EndDrain? || b.Complete? ==> SP.PhaseWeight(Scheduling.Apply(c, m, b).phase) < SP.PhaseWeight(m.phase)
  {
    hide Scheduling.WithAllSkipped, Scheduling.WithDescendantsSkipped, Scheduling.Released, Scheduling.NewlyReady;
    hide Contribution;
  }

  lemma QuietLeft(w: World, s: Sys, a: Action, id: Id)
    requires id in G(w) && Enabled(w, s, a) && (a.Cancel? || a.Tick?)
    ensures Left(w, Apply(w, s, a), id) == Left(w, s, id)
  {
    hide MovesLeft, G;
  }

  lemma StepLeft(w: World, s: Sys, a: Action, id: Id)
    requires id in G(w) && EInv(w, s) && Enabled(w, s, a)
    ensures Left(w, Apply(w, s, a), id) <= Left(w, s, id)
  {
    hide EInv, Enabled, Apply, Left, G;
    match a {
      case Work(x, m) => WorkShortens(w, s, x, m, id);
      case Tick(dt) => QuietLeft(w, s, a, id);
      case Cancel => QuietLeft(w, s, a, id);
      case _ => MainShortens(w, s, a, id);
    }
  }

  /** The task a step brings forward; none for the two ways of leaving the loop. */
  lemma Mover(w: World, s: Sys, a: Action) returns (x: Id)
    requires EInv(w, s) && Enabled(w, s, a) && Productive(a) && !a.EndDrain? && !a.Complete?
    ensures x in G(w) && Left(w, Apply(w, s, a), x) < Left(w, s, x)
  {
    match a {
      case Dispatch(id) =>
        x := id;
        DispatchKnown(w, s, id);
      case Receive =>
        ReceiveNeedsSpan(w, s);
        HeadMatches(w, s);
        x := s.done[0].id;
        InFlightKnown(w, s, x);
      case Work(id, m) =>
        x := id;
        WorkEnabled(w, s, id, m);
    }
    hide EInv, Enabled, Apply, Left, G;
    if a.Work? { WorkShortens(w, s, a.id, a.move, x); } else { MainShortens(w, s, a, x); }
  }

  /** Productive steps use up the potential, and no step adds to it. */
  lemma StepPotential(w: World, order: seq<Id>, s: Sys, a: Action)
    requires Covers(w, order) && EInv(w, s) && Enabled(w, s, a)
    ensures Potential(w, order, Apply(w, s, a)) + (if Productive(a) then 1 else 0) <= Potential(w, order, s)
  {
    hide EInv, Enabled, Apply, Left, G, SumLeft, SP.PhaseWeight;
    var t := Apply(w, s, a);
    PhaseFalls(w, s, a);
    forall id | id in order ensures Left(w, t, id) <= Left(w, s, id) { StepLeft(w, s, a, id); }
    if Productive(a) && !a.EndDrain? && !a.Complete? {
      var x := Mover(w, s, a);
      SumFallsAt(w, order, s, t, x);
    } else {
      SumFalls(w, order, s, t);
    }
  }

  function ProductiveSteps(acts: seq<Action>): nat {
    if acts == [] then 0
    else
      var n := |acts| - 1;
      ProductiveSteps(acts[..n]) + if Productive(acts[n]) then 1 else 0
  }

  /** However the goroutines interleave, clock steps and refused polls aside every run is short:
      its other steps, cancellations included, number at most the potential of its first state. */
  lemma {:induction false} EngineTerminates(w: World, order: seq<Id>, tr: seq<Sys>, acts: seq<Action>, i: nat)
    requires Sensible(w) && Covers(w, order) && Run(w, tr, acts) && i < |tr|
    ensures ProductiveSteps(acts[..i]) + Potential(w, order, tr[i]) <= Potential(w, order, Init(w))
    decreases i
  {
    hide Sensible, Covers, Apply, Enabled, EInv, Potential, Init, Productive;
    if i > 0 {
      EngineTerminates(w, order, tr, acts, i - 1);
      RunEInv(w, tr, acts, i - 1);
      assert StepAt(w, tr, acts, i - 1);
      StepPotential(w, order, tr[i - 1], acts[i - 1]);
      assert acts[..i][..i - 1] == acts[..i - 1];
    }
  }

  // ---------- something can always happen ----------

  ghost predicate LimitersOk(w: World, s: Sys) {
    forall k :: LimitOf(w, k).Some? ==>
      LimitOf(w, k).value.per > 0.0 && LimitOf(w, k).value.requests >= 1
      && Buckets.Sane(ParamsOf(LimitOf(w, k).value)) && BucketOk(s, k, ParamsOf(LimitOf(w, k).value))
  }

  lemma RunLimiters(w: World, tr: seq<Sys>, acts: seq<Action>, i: nat)
    requires Sensible(w) && Run(w, tr, acts) && i < |tr|
    ensures LimitersOk(w, tr[i])
  {
    forall k | LimitOf(w, k).Some?
      ensures LimitOf(w, k).value.per > 0.0 && LimitOf(w, k).value.requests >= 1
      ensures Buckets.Sane(ParamsOf(LimitOf(w, k).value)) && BucketOk(tr[i], k, ParamsOf(LimitOf(w, k).value))
    {
      assert SaneLimit(LimitOf(w, k));
      LimitIsSane(w, k);
      hide Sensible, LimitOf, BucketOk, Run;
      RunBucketOk(w, tr, acts, k, ParamsOf(LimitOf(w, k).value), i);
    }
  }

  /** Every limiter grants one token after a wait that its level determines. */
  lemma GrantsInTime(w: World, s: Sys, k: Key) returns (dt: real)
    requires LimitersOk(w, s)
    ensures dt >= 0.0 && Grants(w, s.(now := s.now + dt), k)
  {
    dt := 0.0;
    if LimitOf(w, k).Some? {
      var r := LimitOf(w, k).value;
      var p, b := ParamsOf(r), s.buckets[k];
      hide LimitOf, Buckets.LevelAt, Buckets.Inflow;
      if Buckets.LevelAt(p, b, s.now) < 1.0 {
        dt := Buckets.Delay(p, b, s.now, 1.0);
        DelayPositive(p, b, s.now);
        Buckets.DelayIsLeast(p, b, s.now, 1.0, s.now + dt);
      }
    }
  }

  lemma DelayPositive(p: Buckets.Params, b: Buckets.Tokens, now: real)
    requires p.rate > 0.0 && Buckets.LevelAt(p, b, now) < 1.0
    ensures Buckets.Delay(p, b, now, 1.0) >= 0.0
  {
    hide Buckets.LevelAt;
    Buckets.RatioPositive(1.0 - Buckets.LevelAt(p, b, now), p.rate);
  }

  /** The move a goroutine makes unless it gives up, is refused or has nothing more to do. */
  function Forward(pc: Pc): Move
    requires !pc.Sent?
  {
    match pc
    case Start => ResolveInputs
    case WantPermit(_) => TakePermit
    case WantGlobal(_) => TakeGlobal
    case WantProvider(_) => TakeProvider
    case MayCall(_) => Call
    case Calling(_) => Return(0)
    case Backoff(_) => Wake
    case Sending => Send
  }

  lemma ForwardFits(w: World, s: Sys, id: Id)
    requires id in G(w) && id in s.workers && !s.workers[id].pc.Sent?
    requires HoldsPermit(s.workers[id].pc) || s.held < w.wf.maxParallel
    requires |s.done| < ChannelCapacity(w)
    requires s.workers[id].pc.WantGlobal? ==> Grants(w, s, Global)
    requires s.workers[id].pc.WantProvider? ==> Grants(w, s, ProviderKey(w, id))
    ensures var m := Forward(s.workers[id].pc);
            Useful(Work(id, m)) && CanMove(w, id, s.workers[id], m) && Resources(w, s, id, m)
  {
    hide G, Grants, ProviderKey, ChannelCapacity;
  }

  /** A goroutine that holds a permit, or could get one, has a move once its limiter has a token. */
  lemma GoroutineMoves(w: World, s: Sys, id: Id) returns (dt: real, m: Move)
    requires LimitersOk(w, s) && EInv(w, s) && UniqueIds(w.wf.tasks)
    requires id in s.workers && !s.workers[id].pc.Sent?
    requires HoldsPermit(s.workers[id].pc) || s.held < w.wf.maxParallel
    ensures dt >= 0.0 && m == Forward(s.workers[id].pc)
    ensures Useful(Work(id, m)) && Enabled(w, s.(now := s.now + dt), Work(id, m))
  {
    hide *;
    InFlightKnown(w, s, id);
    ChannelHasRoom(w, s);
    var pc := s.workers[id].pc;
    dt, m := 0.0, Forward(pc);
    if pc.WantGlobal? {
      dt := GrantsInTime(w, s, Global);
    } else if pc.WantProvider? {
      dt := GrantsInTime(w, s, ProviderKey(w, id));
    }
    ForwardFits(w, s.(now := s.now + dt), id);
    WorkEnabled(w, s.(now := s.now + dt), id, m);
  }

  /** With no goroutine left the main loop has something to do. */
  lemma MainMoves(w: World, s: Sys) returns (a: Action)
    requires EInv(w, s) && s.workers == map[] && !s.main.phase.Finished?
    ensures Useful(a) && Enabled(w, s, a)
  {
    hide SI.Inv, C, PermitsOk, ChannelOk, NothingLost;
    assert s.main.inFlight.Keys == {};
    assert s.main.inFlight == map[];
    if s.main.phase.Draining? {
      a := EndDrain;
    } else if id :| id in s.main.ready {
      a := Dispatch(id);
    } else {
      assert s.main.ready == {};
      a := Complete;
    }
  }

  lemma TakeSpan(w: World, s: Sys)
    requires EInv(w, s) && s.done != [] && !s.main.phase.Finished?
    ensures Enabled(w, s, Receive)
  {
    hide SI.Inv, C, PermitsOk, NothingLost;
    assert s.done[0].id in s.workers;
  }

  lemma NoOneHolds(w: World, s: Sys)
    requires EInv(w, s) && w.wf.maxParallel >= 1 && Holders(s.workers) == {}
    ensures s.held < w.wf.maxParallel
  {
    hide SI.Inv, WorkersMatch, ChannelOk, NothingLost;
  }

  lemma ChannelShowsSent(s: Sys, id: Id)
    requires NothingLost(s) && id in s.workers && s.workers[id].pc.Sent?
    ensures s.done != []
  {
    assert InChannel(s.done, id);
  }

  /** In every unfinished state that keeps the invariants, a useful step is possible after some
      wait: no goroutine, limiter, permit or channel can hold the run up for good. */
  lemma SomethingUseful(w: World, s: Sys) returns (dt: real, a: Action)
    requires Sensible(w) && UniqueIds(w.wf.tasks) && EInv(w, s) && LimitersOk(w, s) && !s.main.phase.Finished?
    ensures dt >= 0.0 && Useful(a) && Enabled(w, s.(now := s.now + dt), a)
  {
    dt := 0.0;
    hide EInv, Sensible, LimitersOk, Enabled, UniqueIds, HoldsPermit, NothingLost;
    assert s.(now := s.now + 0.0) == s;
    if s.done != [] {
      TakeSpan(w, s);
      a := Receive;
    } else if id :| id in s.workers {
      assert NothingLost(s) by { LosesNothing(w, s); }
      var x := id;
      if h :| h in Holders(s.workers) {
        x := h;
      } else {
        ManyPermits(w);
        NoOneHolds(w, s);
      }
      if s.workers[x].pc.Sent? { ChannelShowsSent(s, x); }
      var m;
      dt, m := GoroutineMoves(w, s, x);
      a := Work(x, m);
    } else {
      assert s.workers == map[];
      a := MainMoves(w, s);
    }
  }

  lemma LosesNothing(w: World, s: Sys)
    requires EInv(w, s)
    ensures NothingLost(s)
  {
    hide SI.Inv;
  }

  lemma ManyPermits(w: World)
    requires Sensible(w)
    ensures w.wf.maxParallel >= 1
  {
  }

  // ---------- every run can finish ----------

  lemma RunExtend(w: World, tr: seq<Sys>, acts: seq<Action>, a: Action)
    requires Run(w, tr, acts) && Enabled(w, tr[|acts|], a)
    ensures Run(w, tr + [Apply(w, tr[|acts|], a)], acts + [a])
  {
    var tr', acts' := tr + [Apply(w, tr[|acts|], a)], acts + [a];
    hide Enabled, Apply, Init;
    forall i: nat | i < |acts'| ensures StepAt(w, tr', acts', i) {
      if i < |acts| { assert StepAt(w, tr, acts, i); }
    }
  }

  /** The later steps of a run only wait or are useful. */
  ghost predicate Onward(acts: seq<Action>, n: nat) {
    forall i :: n <= i < |acts| ==> acts[i].Tick? || Useful(acts[i])
  }

  /** Waits as long as it takes, then does something useful. */
  lemma OneOn(w: World, tr: seq<Sys>, acts: seq<Action>, order: seq<Id>) returns (tr': seq<Sys>, acts': seq<Action>)
    requires Sensible(w) && UniqueIds(w.wf.tasks) && Run(w, tr, acts) && !tr[|acts|].main.phase.Finished? && Covers(w, order)
    ensures Run(w, tr', acts') && acts <= acts' && Onward(acts', |acts|)
    ensures Potential(w, order, tr'[|acts'|]) < Potential(w, order, tr[|acts|])
  {
    hide EInv, Sensible, LimitersOk, Enabled, Apply, UniqueIds, Potential, Covers, Useful, Productive, Init;
    var s := tr[|acts|];
    RunEInv(w, tr, acts, |acts|);
    RunLimiters(w, tr, acts, |acts|);
    var dt, a := SomethingUseful(w, s);
    TickApplies(w, s, dt);
    RunExtend(w, tr, acts, Tick(dt));
    var u, tr1, acts1 := Apply(w, s, Tick(dt)), tr + [Apply(w, s, Tick(dt))], acts + [Tick(dt)];
    RunEInv(w, tr1, acts1, |acts1|);
    RunExtend(w, tr1, acts1, a);
    tr', acts' := tr1 + [Apply(w, u, a)], acts1 + [a];
    StepPotential(w, order, s, Tick(dt));
    StepPotential(w, order, u, a);
    UsefulIsProductive(a);
  }

  lemma UsefulIsProductive(a: Action)
    requires Useful(a)
    ensures Productive(a)
  {
  }

  lemma TickApplies(w: World, s: Sys, dt: real)
    requires dt >= 0.0
    ensures Enabled(w, s, Tick(dt)) && Apply(w, s, Tick(dt)) == s.(now := s.now + dt)
  {
  }

  lemma {:induction false} FinishFrom(w: World, tr: seq<Sys>, acts: seq<Action>, order: seq<Id>)
    returns (tr': seq<Sys>, acts': seq<Action>)
    requires Sensible(w) && UniqueIds(w.wf.tasks) && Run(w, tr, acts) && Covers(w, order)
    ensures Run(w, tr', acts') && acts <= acts' && Onward(acts', |acts|) && tr'[|acts'|].main.phase.Finished?
    decreases Potential(w, order, tr[|acts|])
  {
    hide Sensible, UniqueIds, Covers, Potential, Useful, StepAt, Init;
    if tr[|acts|].main.phase.Finished? {
      tr', acts' := tr, acts;
    } else {
      var tr1, acts1 := OneOn(w, tr, acts, order);
      tr', acts' := FinishFrom(w, tr1, acts1, order);
      assert forall i :: |acts| <= i < |acts1| ==> acts'[i] == acts1[i];
    }
  }

  /** Deadlock freedom: whatever has happened, cancellations included, every run of the engine can
      be continued to its end by waiting and by steps of the goroutines and the main loop alone. */
  lemma CanFinish(w: World, tr: seq<Sys>, acts: seq<Action>) returns (tr': seq<Sys>, acts': seq<Action>)
    requires Sensible(w) && UniqueIds(w.wf.tasks) && Run(w, tr, acts)
    ensures Run(w, tr', acts') && acts <= acts' && Onward(acts', |acts|) && tr'[|acts'|].main.phase.Finished?
  {
    var order := TopologicalOrder(G(w));
    assert Covers(w, order);
    tr', acts' := FinishFrom(w, tr, acts, order);
  }
}
