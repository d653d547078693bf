/** Permits, the done channel and the main loop: what every interleaving keeps. */
module EngineInvariant {
  import opened Values
  import opened Graphs
  import opened Workflows
  import opened Spans
  import Scheduling
  import SI = SchedulerInvariant
  import SP = SchedulerProperties
  import MainLoop
  import TaskExecution
  import Templates
  import opened Confluence
  import opened Engine

  function Holders(workers: map<Id, Worker>): set<Id> {
    set id | id in workers && HoldsPermit(workers[id].pc)
  }

  /** One goroutine per task in flight, each with the snapshot it was dispatched with. */
  ghost predicate WorkersMatch(w: World, s: Sys) {
    && s.workers.Keys == s.main.inFlight.Keys
    && (forall id :: id in s.workers ==> s.workers[id].seen == s.main.inFlight[id] && s.workers[id].span.id == id)
  }

  /** The channel holds the spans of the goroutines that have sent theirs, once each. */
  ghost predicate ChannelOk(s: Sys) {
    && (forall i :: 0 <= i < |s.done| ==>
          s.done[i].id in s.workers && s.workers[s.done[i].id].pc.Sent? && s.workers[s.done[i].id].span == s.done[i])
    && (forall i, j :: 0 <= i < j < |s.done| ==> s.done[i].id != s.done[j].id)
  }

  /** No span is lost on the way: one that was sent and not yet received is in the channel. */
  ghost predicate NothingLost(s: Sys) {
    forall id :: id in s.workers && s.workers[id].pc.Sent? ==> InChannel(s.done, id)
  }

  ghost predicate InChannel(done: seq<Span>, id: Id) {
    exists i :: 0 <= i < |done| && done[i].id == id
  }

  ghost predicate PermitsOk(w: World, s: Sys) {
    s.held == |Holders(s.workers)| <= w.wf.maxParallel
  }

  ghost predicate EInv(w: World, s: Sys) {
    SI.Inv(C(w), s.main) && WorkersMatch(w, s) && ChannelOk(s) && NothingLost(s) && PermitsOk(w, s)
  }

  /** The main loop sees each action as one of its own, or does not notice it. */
  ghost function MainAction(s: Sys, a: Action): Option<Scheduling.Action> {
    match a
    case Dispatch(id) => Some(Scheduling.Dispatch(id))
    case Receive => if s.done == [] then None else Some(Taking(s))
    case EndDrain => Some(Scheduling.EndDrain)
    case Complete => Some(Scheduling.Complete)
    case _ => None
  }

  /** Refinement: every step of the engine is a step of the scheduler's transition system, or
      leaves the main loop alone. */
  lemma StepRefines(w: World, s: Sys, a: Action)
    requires Enabled(w, s, a)
    ensures match MainAction(s, a)
            case None => Apply(w, s, a).main == s.main
            case Some(b) => Scheduling.Enabled(C(w), s.main, b) && Apply(w, s, a).main == Scheduling.Apply(C(w), s.main, b)
  {
  }

  /** Two sets that agree except perhaps on x. */
  lemma SizeAfterChange(a: set<Id>, b: set<Id>, x: Id)
    requires forall y :: y != x ==> (y in a <==> y in b)
    ensures |b| == |a| - (if x in a then 1 else 0) + (if x in b then 1 else 0)
  {
    assert a == if x in a then (a - {x}) + {x} else a - {x};
    assert b == if x in b then (a - {x}) + {x} else a - {x};
  }

  lemma HoldersUpdate(workers: map<Id, Worker>, id: Id, k: Worker)
    ensures var was := id in workers && HoldsPermit(workers[id].pc);
            |Holders(workers[id := k])| ==
            |Holders(workers)| - (if was then 1 else 0) + (if HoldsPermit(k.pc) then 1 else 0)
  {
    hide HoldsPermit;
    SizeAfterChange(Holders(workers), Holders(workers[id := k]), id);
  }

  /** Taking and giving back permits follows the goroutine's position on every path. */
  lemma MovePermits(w: World, id: Id, k: Worker, m: Move)
    requires id in G(w) && CanMove(w, id, k, m)
    ensures (if HoldsPermit(Moved(w, id, k, m).pc) then 1 else 0) == (if HoldsPermit(k.pc) then 1 else 0) + PermitChange(m)
  {
    hide Templates.Resolve, TaskExecution.AfterCall, MaxRetries, UsesProvider;
  }

  lemma MoveKeeps(w: World, id: Id, k: Worker, m: Move)
    requires id in G(w) && CanMove(w, id, k, m) && k.span.id == id
    ensures Moved(w, id, k, m).seen == k.seen && Moved(w, id, k, m).span.id == id
    ensures !k.pc.Sent? && (m.Send? ==> Moved(w, id, k, m) == k.(pc := Sent))
    ensures !m.Send? ==> !Moved(w, id, k, m).pc.Sent?
  {
    hide Templates.Resolve, MaxRetries, UsesProvider;
  }

  lemma WorkInv(w: World, s: Sys, id: Id, m: Move)
    requires EInv(w, s) && id in s.workers && id in G(w) && CanMove(w, id, s.workers[id], m) && Resources(w, s, id, m)
    ensures EInv(w, WorkStep(w, s, id, m))
  {
    hide SI.Inv, Moved, Grants, PolledBuckets, HoldsPermit;
    var t := WorkStep(w, s, id, m);
    var k := s.workers[id];
    MovePermits(w, id, k, m);
    MoveKeeps(w, id, k, m);
    HoldersUpdate(s.workers, id, Moved(w, id, k, m));
    WorkChannel(w, s, id, m);
    WorkLosesNothing(w, s, id, m);
    hide ChannelOk, NothingLost;
    assert t.workers.Keys == s.workers.Keys;
  }

  lemma WorkLosesNothing(w: World, s: Sys, id: Id, m: Move)
    requires NothingLost(s) && WorkersMatch(w, s) && id in s.workers && id in G(w) && CanMove(w, id, s.workers[id], m)
    ensures NothingLost(WorkStep(w, s, id, m))
  {
    hide SI.Inv, Moved, Grants, PolledBuckets, HoldsPermit, InChannel;
    var t := WorkStep(w, s, id, m);
    MoveKeeps(w, id, s.workers[id], m);
    forall x | x in t.workers && t.workers[x].pc.Sent? ensures InChannel(t.done, x) {
      if m.Send? {
        ChannelGrows(s.done, s.workers[id].span, x);
      }
    }
  }

  lemma ChannelGrows(done: seq<Span>, span: Span, id: Id)
    ensures InChannel(done, id) || span.id == id ==> InChannel(done + [span], id)
  {
    var more := done + [span];
    assert more[|done|] == span;
    if i :| 0 <= i < |done| && done[i].id == id { assert more[i].id == id; }
  }

  lemma ChannelShrinks(done: seq<Span>, id: Id)
    requires done != [] && InChannel(done, id) && done[0].id != id
    ensures InChannel(done[1..], id)
  {
    var i :| 0 <= i < |done| && done[i].id == id;
    assert done[1..][i - 1].id == id;
  }

  lemma WorkChannel(w: World, s: Sys, id: Id, m: Move)
    requires ChannelOk(s) && WorkersMatch(w, s) && id in s.workers && id in G(w) && CanMove(w, id, s.workers[id], m)
    ensures ChannelOk(WorkStep(w, s, id, m))
  {
    hide SI.Inv, Moved, Grants, PolledBuckets, HoldsPermit, PermitsOk;
    var t := WorkStep(w, s, id, m);
    MoveKeeps(w, id, s.workers[id], m);
    forall i | 0 <= i < |s.done| ensures s.done[i].id != id {
    }
    forall i | 0 <= i < |t.done|
      ensures t.done[i].id in t.workers && t.workers[t.done[i].id].pc.Sent? && t.workers[t.done[i].id].span == t.done[i]
    {
      if i < |s.done| { assert t.done[i] == s.done[i]; }
    }
  }

  lemma SoundConfig(w: World)
    requires Sensible(w)
    ensures SI.Sound(C(w)) && C(w).g == G(w)
  {
  }

  lemma DispatchMain(w: World, m: Scheduling.State, id: Id)
    requires Sensible(w) && SI.Inv(C(w), m) && Scheduling.Enabled(C(w), m, Scheduling.Dispatch(id))
    ensures var t := Scheduling.Apply(C(w), m, Scheduling.Dispatch(id));
            SI.Inv(C(w), t) && t.inFlight == m.inFlight[id := m.results] && id !in m.inFlight
  {
    SoundConfig(w);
    SI.StepInv(C(w), m, Scheduling.Dispatch(id));
    hide MainLoop.ConfigOf, SI.ResultsMatch, SI.CountsExact, SI.StartedIffZero, SI.SkipClosed, SI.SkippedBlocked, SI.SnapshotsOk, SI.Ending;
  }

  lemma TakeMain(w: World, m: Scheduling.State, b: Scheduling.Action)
    requires Sensible(w) && SI.Inv(C(w), m) && Scheduling.Enabled(C(w), m, b) && (b.Receive? || b.Drain?)
    ensures var t := Scheduling.Apply(C(w), m, b);
            SI.Inv(C(w), t) && t.inFlight == m.inFlight - {b.span.id} && b.span.id in m.inFlight
  {
    hide *;
    SoundConfig(w);
    SI.StepInv(C(w), m, b);
    TakeInFlight(C(w), m, b);
  }

  lemma TakeInFlight(c: Scheduling.Config, m: Scheduling.State, b: Scheduling.Action)
    requires Scheduling.Enabled(c, m, b) && (b.Receive? || b.Drain?)
    ensures b.span.id in m.inFlight && Scheduling.Apply(c, m, b).inFlight == m.inFlight - {b.span.id}
  {
    hide Scheduling.WithDescendantsSkipped, Scheduling.Released, Scheduling.NewlyReady, Contribution;
  }

  lemma DispatchEInv(w: World, s: Sys, id: Id)
    requires Sensible(w) && EInv(w, s) && Enabled(w, s, Dispatch(id))
    ensures EInv(w, Apply(w, s, Dispatch(id)))
  {
    hide SI.Inv, Scheduling.Apply, Scheduling.Enabled, Sensible, MainLoop.ConfigOf, WorkersMatch, ChannelOk, NothingLost, PermitsOk;
    DispatchMain(w, s.main, id);
    KeysMatch(w, s);
    var t := Apply(w, s, Dispatch(id));
    StartMatches(w, s, t, id);
    StartChannel(s, t, id);
    StartPermits(w, s, t, id);
  }

  lemma KeysMatch(w: World, s: Sys)
    requires WorkersMatch(w, s)
    ensures s.workers.Keys == s.main.inFlight.Keys
  {
  }

  lemma StartMatches(w: World, s: Sys, t: Sys, id: Id)
    requires WorkersMatch(w, s) && t.workers == s.workers[id := NewWorker(id, s.main.results)]
    requires t.main.inFlight == s.main.inFlight[id := s.main.results]
    ensures WorkersMatch(w, t)
  {
  }

  lemma StartChannel(s: Sys, t: Sys, id: Id)
    requires ChannelOk(s) && NothingLost(s) && t.done == s.done
    requires t.workers == s.workers[id := NewWorker(id, s.main.results)] && (id in s.workers ==> !s.workers[id].pc.Sent?)
    ensures ChannelOk(t) && NothingLost(t)
  {
    hide InChannel;
  }

  lemma StartPermits(w: World, s: Sys, t: Sys, id: Id)
    requires PermitsOk(w, s) && t.held == s.held && id !in s.workers
    requires t.workers == s.workers[id := NewWorker(id, s.main.results)]
    ensures PermitsOk(w, t)
  {
    HoldersUpdate(s.workers, id, NewWorker(id, s.main.results));
    assert !HoldsPermit(NewWorker(id, s.main.results).pc);
    hide HoldsPermit, Holders;
  }

  lemma ReceiveEInv(w: World, s: Sys)
    requires Sensible(w) && EInv(w, s) && Enabled(w, s, Receive)
    ensures EInv(w, Apply(w, s, Receive))
  {
    hide SI.Inv, Scheduling.Apply, Scheduling.Enabled, Sensible, MainLoop.ConfigOf, InChannel;
    var t := Apply(w, s, Receive);
    var id := s.done[0].id;
    TakeMain(w, s.main, Taking(s));
    assert Holders(t.workers) == Holders(s.workers);
    forall i | 0 <= i < |t.done|
      ensures t.done[i].id in t.workers && t.workers[t.done[i].id].pc.Sent? && t.workers[t.done[i].id].span == t.done[i]
    {
      assert t.done[i] == s.done[i + 1];
    }
    forall x | x in t.workers && t.workers[x].pc.Sent? ensures InChannel(t.done, x) {
      ChannelShrinks(s.done, x);
    }
  }

  lemma QuietEInv(w: World, s: Sys, t: Sys)
    requires EInv(w, s) && SI.Inv(C(w), t.main) && t.main.inFlight == s.main.inFlight
    requires t.workers == s.workers && t.done == s.done && t.held == s.held
    ensures EInv(w, t)
  {
    hide SI.Inv;
  }

  lemma EndingEInv(w: World, s: Sys, a: Action)
    requires Sensible(w) && EInv(w, s) && Enabled(w, s, a) && (a.EndDrain? || a.Complete?)
    ensures EInv(w, Apply(w, s, a))
  {
    hide SI.Inv, WorkersMatch, ChannelOk, NothingLost, PermitsOk, Scheduling.WithAllSkipped;
    SI.StepInv(C(w), s.main, MainAction(s, a).value);
    QuietEInv(w, s, Apply(w, s, a));
  }

  lemma OutsideEInv(w: World, s: Sys, a: Action)
    requires EInv(w, s) && Enabled(w, s, a) && (a.Cancel? || a.Tick?)
    ensures EInv(w, Apply(w, s, a))
  {
    hide SI.Inv, WorkersMatch, ChannelOk, NothingLost, PermitsOk;
    QuietEInv(w, s, Apply(w, s, a));
  }

  lemma StepEInv(w: World, s: Sys, a: Action)
    requires Sensible(w) && EInv(w, s) && Enabled(w, s, a)
    ensures EInv(w, Apply(w, s, a))
  {
    hide EInv, Sensible, WorkStep, Enabled;
    match a {
      case Dispatch(id) => DispatchEInv(w, s, id);
      case Receive => ReceiveEInv(w, s);
      case EndDrain => EndingEInv(w, s, a);
      case Complete => EndingEInv(w, s, a);
      case Cancel => OutsideEInv(w, s, a);
      case Tick(dt) => OutsideEInv(w, s, a);
      case Work(id, m) => WorkEnabled(w, s, id, m); WorkInv(w, s, id, m); WorkApply(w, s, id, m);
    }
  }

  lemma WorkEnabled(w: World, s: Sys, id: Id, m: Move)
    ensures Enabled(w, s, Work(id, m)) <==>
            id in s.workers && id in G(w) && CanMove(w, id, s.workers[id], m) && Resources(w, s, id, m)
  {
  }

  lemma WorkApply(w: World, s: Sys, id: Id, m: Move)
    requires Enabled(w, s, Work(id, m))
    ensures Apply(w, s, Work(id, m)) == WorkStep(w, s, id, m)
  {
  }

  lemma InitEInv(w: World)
    requires Sensible(w)
    ensures EInv(w, Init(w))
  {
    SI.InitInv(C(w));
    hide SI.Inv;
    assert Holders(map[]) == {};
  }

  lemma {:induction false} RunEInv(w: World, tr: seq<Sys>, acts: seq<Action>, i: nat)
    requires Sensible(w) && Run(w, tr, acts) && i < |tr|
    ensures EInv(w, tr[i])
    decreases i
  {
    hide EInv, Apply, Enabled, Sensible, Init;
    if i == 0 {
      InitEInv(w);
    } else {
      RunEInv(w, tr, acts, i - 1);
      assert StepAt(w, tr, acts, i - 1);
      StepEInv(w, tr[i - 1], acts[i - 1]);
    }
  }

  // ---------- one task at a time ----------

  lemma WorkMoves(w: World, s: Sys, x: Id, m: Move)
    requires x in s.workers && x in G(w) && CanMove(w, x, s.workers[x], m)
    ensures var t := WorkStep(w, s, x, m);
            && t.main == s.main && t.cancelled == s.cancelled
            && t.workers == s.workers[x := Moved(w, x, s.workers[x], m)]
  {
    hide Moved, G, CanMove, PolledBuckets;
  }

  /** What the main loop does to the spans: it takes at most one from the channel and marks
      tasks that have none. */
  lemma MainSpans(c: Scheduling.Config, s: Scheduling.State, a: Scheduling.Action, id: Id)
    requires SI.Inv(c, s) && Scheduling.Enabled(c, s, a)
    ensures var t := Scheduling.Apply(c, s, a);
            var taken := (a.Receive? || a.Drain?) && a.span.id == id;
            && (taken ==> id !in s.spans && id in t.spans && t.spans[id] == a.span)
            && (!taken && id in s.spans ==> id in t.spans && t.spans[id] == s.spans[id])
            && (!taken && id !in s.spans && id in t.spans ==> t.spans[id] == SkippedSpan(id))
  {
    hide Scheduling.Released, Scheduling.NewlyReady, Contribution, DependsOn;
    hide SI.ResultsMatch, SI.CountsExact, SI.StartedIffZero, SI.SkipClosed, SI.SkippedBlocked, SI.SnapshotsOk, SI.Ending;
  }

  lemma MainSpansEInv(w: World, s: Sys, b: Scheduling.Action, id: Id)
    requires EInv(w, s) && Scheduling.Enabled(C(w), s.main, b)
    ensures var t := Scheduling.Apply(C(w), s.main, b);
            var taken := (b.Receive? || b.Drain?) && b.span.id == id;
            && (taken ==> id !in s.main.spans && id in t.spans && t.spans[id] == b.span)
            && (!taken && id in s.main.spans ==> id in t.spans && t.spans[id] == s.main.spans[id])
            && (!taken && id !in s.main.spans && id in t.spans ==> t.spans[id] == SkippedSpan(id))
  {
    MainSpans(C(w), s.main, b, id);
    hide *;
  }

  lemma MainWorkers(w: World, s: Sys, a: Action)
    requires Enabled(w, s, a) && (a.Dispatch? || a.Receive? || a.EndDrain? || a.Complete?)
    ensures Apply(w, s, a).workers ==
            match a
            case Dispatch(id) => s.workers[id := NewWorker(id, s.main.results)]
            case Receive => s.workers - {s.done[0].id}
            case _ => s.workers
  {
    hide Scheduling.Apply, Scheduling.Enabled, C;
  }

  lemma HeadMatches(w: World, s: Sys)
    requires EInv(w, s) && s.done != []
    ensures s.done[0].id in s.workers && s.workers[s.done[0].id].span == s.done[0] && s.workers[s.done[0].id].pc.Sent?
  {
    hide SI.Inv;
  }

  lemma DispatchFresh(w: World, s: Sys, id: Id)
    requires EInv(w, s) && Enabled(w, s, Dispatch(id))
    ensures id !in s.workers && id !in s.main.spans
  {
    hide SI.ResultsMatch, SI.CountsExact, SI.StartedIffZero, SI.SkipClosed, SI.SkippedBlocked, SI.SnapshotsOk, SI.Ending;
  }

  /** What a step of the main loop changes about one task. */
  lemma MainAt(w: World, s: Sys, a: Action, id: Id)
    requires EInv(w, s) && Enabled(w, s, a) && (a.Dispatch? || a.Receive? || a.EndDrain? || a.Complete?)
    ensures var t := Apply(w, s, a);
            if a == Dispatch(id) then
              && id !in s.workers && id !in s.main.spans && id in t.workers && t.workers[id] == NewWorker(id, s.main.results)
              && id !in t.main.spans
            else if a.Receive? && s.done != [] && s.done[0].id == id then
              && id in s.workers && s.workers[id].pc.Sent? && s.workers[id].span == s.done[0]
              && id !in t.workers && id in t.main.spans && t.main.spans[id] == s.done[0]
            else
              && (id in t.workers <==> id in s.workers) && (id in s.workers ==> t.workers[id] == s.workers[id])
              && (id in s.main.spans ==> id in t.main.spans && t.main.spans[id] == s.main.spans[id])
              && (id !in s.main.spans && id in t.main.spans ==> t.main.spans[id] == SkippedSpan(id))
  {
    MainWorkers(w, s, a);
    MainStepSpans(w, s, a, id);
    if a.Receive? { ReceiveNeedsSpan(w, s); HeadMatches(w, s); }
    if a.Dispatch? { DispatchFresh(w, s, a.id); DispatchSpans(w, s, a.id); }
    hide *;
  }

  lemma DispatchSpans(w: World, s: Sys, id: Id)
    requires Enabled(w, s, Dispatch(id))
    ensures Apply(w, s, Dispatch(id)).main.spans == s.main.spans
  {
    hide C;
  }

  lemma ReceiveNeedsSpan(w: World, s: Sys)
    requires Enabled(w, s, Receive)
    ensures s.done != []
  {
  }

  lemma MainStepSpans(w: World, s: Sys, a: Action, id: Id)
    requires EInv(w, s) && Enabled(w, s, a) && (a.Dispatch? || a.Receive? || a.EndDrain? || a.Complete?)
    ensures var t := Apply(w, s, a);
            var taken := a.Receive? && s.done != [] && s.done[0].id == id;
            && (taken ==> id !in s.main.spans && id in t.main.spans && t.main.spans[id] == s.done[0])
            && (!taken && id in s.main.spans ==> id in t.main.spans && t.main.spans[id] == s.main.spans[id])
            && (!taken && id !in s.main.spans && id in t.main.spans ==> t.main.spans[id] == SkippedSpan(id))
  {
    StepRefines(w, s, a);
    hide EInv, Enabled, Apply, Scheduling.Apply, Scheduling.Enabled, C;
    MainSpansEInv(w, s, MainAction(s, a).value, id);
  }

  lemma DispatchKnown(w: World, s: Sys, id: Id)
    requires EInv(w, s) && Enabled(w, s, Dispatch(id))
    ensures id in G(w)
  {
    hide SI.ResultsMatch, SI.CountsExact, SI.StartedIffZero, SI.SkipClosed, SI.SkippedBlocked, SI.SnapshotsOk, SI.Ending;
  }

  // ---------- what follows ----------

  function Callers(s: Sys): set<Id> {
    set id | id in s.workers && s.workers[id].pc.Calling?
  }

  /** In every interleaving at most MaxParallel tasks are inside the executor at once. */
  lemma ConcurrencyBound(w: World, tr: seq<Sys>, acts: seq<Action>, i: nat)
    requires Sensible(w) && Run(w, tr, acts) && i < |tr|
    ensures |Callers(tr[i])| <= w.wf.maxParallel
  {
    RunEInv(w, tr, acts, i);
    SP.SubsetSize(Callers(tr[i]), Holders(tr[i].workers));
  }

  /** Executor calls begun in the first n steps, less those that have returned. */
  ghost function Inside(acts: seq<Action>, n: nat): int
    requires n <= |acts|
  {
    if n == 0 then 0
    else
      var a := acts[n - 1];
      Inside(acts, n - 1) + (if a.Work? && a.move.Call? then 1 else 0) - (if a.Work? && a.move.Return? then 1 else 0)
  }

  lemma MoveInside(w: World, id: Id, k: Worker, m: Move)
    requires id in G(w) && CanMove(w, id, k, m)
    ensures (if Moved(w, id, k, m).pc.Calling? then 1 else 0) ==
            (if k.pc.Calling? then 1 else 0) + (if m.Call? then 1 else 0) - (if m.Return? then 1 else 0)
  {
    hide Templates.Resolve, TaskExecution.AfterCall, MaxRetries, UsesProvider;
  }

  lemma WorkInside(w: World, s: Sys, id: Id, m: Move)
    requires id in s.workers && id in G(w) && CanMove(w, id, s.workers[id], m)
    ensures |Callers(WorkStep(w, s, id, m))| ==
            |Callers(s)| + (if m.Call? then 1 else 0) - (if m.Return? then 1 else 0)
  {
    MoveInside(w, id, s.workers[id], m);
    WorkMoves(w, s, id, m);
    hide Moved, CanMove, WorkStep, G;
    SizeAfterChange(Callers(s), Callers(WorkStep(w, s, id, m)), id);
  }

  lemma StartInside(s: Sys, t: Sys, id: Id, seen: map<Id, Value>)
    requires id !in s.workers && t.workers == s.workers[id := NewWorker(id, seen)]
    ensures Callers(t) == Callers(s)
  {
  }

  lemma TakenInside(s: Sys, t: Sys, id: Id)
    requires id in s.workers && s.workers[id].pc.Sent? && t.workers == s.workers - {id}
    ensures Callers(t) == Callers(s)
  {
  }

  lemma MainInside(w: World, s: Sys, a: Action)
    requires EInv(w, s) && Enabled(w, s, a) && (a.Dispatch? || a.Receive? || a.EndDrain? || a.Complete?)
    ensures Callers(Apply(w, s, a)) == Callers(s)
  {
    MainWorkers(w, s, a);
    hide EInv, Enabled, Apply, NewWorker;
    match a {
      case Dispatch(id) =>
        DispatchFresh(w, s, id);
        StartInside(s, Apply(w, s, a), id, s.main.results);
      case Receive =>
        ReceiveNeedsSpan(w, s);
        HeadMatches(w, s);
        TakenInside(s, Apply(w, s, a), s.done[0].id);
      case _ =>
    }
  }

  lemma QuietInside(w: World, s: Sys, a: Action)
    requires Enabled(w, s, a) && (a.Cancel? || a.Tick?)
    ensures Callers(Apply(w, s, a)) == Callers(s)
  {
  }

  lemma StepInside(w: World, s: Sys, a: Action)
    requires EInv(w, s) && Enabled(w, s, a)
    ensures |Callers(Apply(w, s, a))| ==
            |Callers(s)| + (if a.Work? && a.move.Call? then 1 else 0) - (if a.Work? && a.move.Return? then 1 else 0)
  {
    hide *;
    match a {
      case Work(id, m) =>
        WorkEnabled(w, s, id, m);
        WorkApply(w, s, id, m);
        WorkInside(w, s, id, m);
      case Cancel => QuietInside(w, s, a);
      case Tick(_) => QuietInside(w, s, a);
      case _ => MainInside(w, s, a);
    }
  }

  /** Counted on the steps of a run: at every moment the executor calls begun and not yet returned
      are those of the goroutines inside the executor, and at most MaxParallel. */
  lemma {:induction false} ExecutorBound(w: World, tr: seq<Sys>, acts: seq<Action>, n: nat)
    requires Sensible(w) && Run(w, tr, acts) && n <= |acts|
    ensures Inside(acts, n) == |Callers(tr[n])| <= w.wf.maxParallel
    decreases n
  {
    hide EInv, Enabled, Apply, Sensible, Callers, Init;
    ConcurrencyBound(w, tr, acts, n);
    if n == 0 {
      assert Callers(Init(w)) == {} by { NobodyYet(w); }
    } else {
      ExecutorBound(w, tr, acts, n - 1);
      RunEInv(w, tr, acts, n - 1);
      assert StepAt(w, tr, acts, n - 1);
      StepInside(w, tr[n - 1], acts[n - 1]);
    }
  }

  lemma NobodyYet(w: World)
    ensures Callers(Init(w)) == {}
  {
  }

  /** When the main loop has finished, every goroutine is gone and every permit is back. */
  lemma PermitsAllFree(w: World, tr: seq<Sys>, acts: seq<Action>, i: nat)
    requires Sensible(w) && Run(w, tr, acts) && i < |tr| && tr[i].main.phase.Finished?
    ensures tr[i].workers == map[] && tr[i].held == 0 && tr[i].done == []
  {
    RunEInv(w, tr, acts, i);
    assert tr[i].workers.Keys == {};
    assert Holders(tr[i].workers) == {};
    DistinctIds(tr[i].done, tr[i].workers.Keys);
  }

  lemma {:induction false} DistinctIds(spans: seq<Span>, ids: set<Id>)
    requires forall i :: 0 <= i < |spans| ==> spans[i].id in ids
    requires forall i, j :: 0 <= i < j < |spans| ==> spans[i].id != spans[j].id
    ensures |spans| <= |ids|
    decreases |spans|
  {
    if spans != [] {
      var n := |spans| - 1;
      DistinctIds(spans[..n], ids - {spans[n].id});
    }
  }

  /** The done channel never fills up, so a goroutine that wants to send its span can. */
  lemma SendNeverBlocks(w: World, tr: seq<Sys>, acts: seq<Action>, i: nat, id: Id)
    requires Sensible(w) && UniqueIds(w.wf.tasks) && Run(w, tr, acts) && i < |tr|
    requires id in tr[i].workers && tr[i].workers[id].pc.Sending?
    ensures Enabled(w, tr[i], Work(id, Send))
  {
    hide EInv, Sensible, Apply, StepAt, DependencyGraph;
    RunEInv(w, tr, acts, i);
    ChannelHasRoom(w, tr[i]);
    InFlightKnown(w, tr[i], id);
    WorkEnabled(w, tr[i], id, Send);
  }

  lemma InFlightKnown(w: World, s: Sys, id: Id)
    requires EInv(w, s) && id in s.workers
    ensures id in G(w)
  {
  }

  lemma ChannelHasRoom(w: World, s: Sys)
    requires EInv(w, s) && UniqueIds(w.wf.tasks)
    ensures |s.done| < ChannelCapacity(w)
  {
    DistinctIds(s.done, s.workers.Keys);
    SP.SubsetSize(s.workers.Keys, C(w).g.Keys);
    GraphSize(w);
  }

  lemma GraphSize(w: World)
    requires UniqueIds(w.wf.tasks)
    ensures C(w).g == G(w) && |G(w).Keys| == |w.wf.tasks|
  {
    TaskMapSize(w.wf.tasks);
    assert G(w).Keys == TaskMap(w.wf.tasks).Keys;
  }

  /** A span that has been sent can be received: the main loop is never the one that blocks. */
  lemma ReceiveEnabled(w: World, tr: seq<Sys>, acts: seq<Action>, i: nat)
    requires Sensible(w) && Run(w, tr, acts) && i < |tr| && tr[i].done != []
    ensures Enabled(w, tr[i], Receive)
  {
    RunEInv(w, tr, acts, i);
    assert tr[i].done[0].id in tr[i].workers;
  }
}
