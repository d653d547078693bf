/** The scheduler's results for whole engine runs: the main loop of every interleaving is a run of
    the scheduler's transition system, and without outside cancellation no span it receives
    before a fatal failure says the task was cancelled. */
module EngineRuns {
  import opened Graphs
  import opened Workflows
  import Scheduling
  import SI = SchedulerInvariant
  import SP = SchedulerProperties
  import MainLoop
  import Templates
  import opened Confluence
  import opened Engine
  import opened EngineInvariant

  // ---------- refinement ----------

  /** What the main loop did in the first n steps. */
  ghost function MainActs(tr: seq<Sys>, acts: seq<Action>, n: nat): seq<Scheduling.Action>
    requires n <= |acts| && n <= |tr|
  {
    if n == 0 then []
    else
      var b := MainAction(tr[n - 1], acts[n - 1]);
      MainActs(tr, acts, n - 1) + if b.Some? then [b.value] else []
  }

  /** Refinement: the main loop of every engine run is, at every moment, a run of the scheduler's
      transition system that has reached the same state. */
  lemma {:induction false} RunRefines(w: World, tr: seq<Sys>, acts: seq<Action>, n: nat)
    requires Run(w, tr, acts) && n <= |acts|
    ensures Scheduling.Reaches(C(w), MainActs(tr, acts, n), tr[n].main)
    decreases n
  {
    hide Apply, Enabled, Scheduling.Reaches, Scheduling.Apply, Scheduling.Enabled, MainLoop.ConfigOf, MainAction;
    if n == 0 {
      Scheduling.ReachesInit(C(w));
    } else {
      RunRefines(w, tr, acts, n - 1);
      assert StepAt(w, tr, acts, n - 1);
      StepRefines(w, tr[n - 1], acts[n - 1]);
      var b := MainAction(tr[n - 1], acts[n - 1]);
      if b.Some? {
        Scheduling.ReachesStep(C(w), MainActs(tr, acts, n - 1), tr[n - 1].main, b.value);
      } else {
        assert MainActs(tr, acts, n) == MainActs(tr, acts, n - 1);
      }
    }
  }

  lemma {:induction false} MainActsGrow(tr: seq<Sys>, acts: seq<Action>, i: nat, j: nat)
    requires i <= j <= |acts| && j <= |tr|
    ensures MainActs(tr, acts, i) <= MainActs(tr, acts, j)
    decreases j
  {
    hide MainAction;
    if i < j { MainActsGrow(tr, acts, i, j - 1); }
  }

  /** Where a step of the engine shows up among the steps of its main loop. */
  lemma StepShows(tr: seq<Sys>, acts: seq<Action>, i: nat, n: nat)
    requires i < n <= |acts| && n <= |tr| && MainAction(tr[i], acts[i]).Some?
    ensures |MainActs(tr, acts, i)| < |MainActs(tr, acts, n)|
    ensures MainActs(tr, acts, n)[|MainActs(tr, acts, i)|] == MainAction(tr[i], acts[i]).value
    ensures |MainActs(tr, acts, i + 1)| == |MainActs(tr, acts, i)| + 1
  {
    hide MainAction;
    MainActsGrow(tr, acts, i + 1, n);
  }

  // ---------- once each ----------

  lemma RunLength(w: World, tr: seq<Sys>, acts: seq<Action>)
    requires Run(w, tr, acts)
    ensures |tr| == |acts| + 1
  {
    hide StepAt, Init;
  }

  /** In every interleaving each task gets one goroutine at most, and that goroutine sees the
      outputs of all its dependencies, which have succeeded. */
  lemma GoroutineOnce(w: World, tr: seq<Sys>, acts: seq<Action>, i: nat, j: nat, id: Id)
    requires Sensible(w) && Run(w, tr, acts) && i < |acts| && j < |acts|
    requires acts[i] == Dispatch(id) && acts[j] == Dispatch(id)
    ensures i == j && i + 1 < |tr| && id in tr[i + 1].workers
    ensures forall d :: Edge(C(w).g, id, d) ==>
              var s := tr[i + 1];
              && d in s.workers[id].seen && d in s.main.spans && s.main.spans[d].status.Succeeded?
              && s.workers[id].seen[d] == s.main.spans[d].output
  {
    hide *;
    RunLength(w, tr, acts);
    DispatchSees(w, tr, acts, i, id);
    if i < j { DispatchedEarlier(w, tr, acts, i, j, id); }
    if j < i { DispatchedEarlier(w, tr, acts, j, i, id); }
  }

  lemma DispatchSees(w: World, tr: seq<Sys>, acts: seq<Action>, i: nat, id: Id)
    requires Sensible(w) && Run(w, tr, acts) && i < |acts| && acts[i] == Dispatch(id)
    ensures i + 1 < |tr| && id in tr[i + 1].workers
    ensures forall d :: Edge(C(w).g, id, d) ==>
              var s := tr[i + 1];
              && d in s.workers[id].seen && d in s.main.spans && s.main.spans[d].status.Succeeded?
              && s.workers[id].seen[d] == s.main.spans[d].output
  {
    assert StepAt(w, tr, acts, i);
    RunEInv(w, tr, acts, i + 1);
    MainWorkers(w, tr[i], acts[i]);
    SeesDependencies(w, tr[i + 1], id);
    hide *;
  }

  /** A goroutine's snapshot holds the outputs of all its dependencies, which have succeeded. */
  lemma SeesDependencies(w: World, s: Sys, id: Id)
    requires EInv(w, s) && id in s.workers
    ensures forall d :: Edge(C(w).g, id, d) ==>
              && d in s.workers[id].seen && d in s.main.spans && s.main.spans[d].status.Succeeded?
              && s.workers[id].seen[d] == s.main.spans[d].output
  {
    assert SI.SnapshotOk(C(w), s.main, id, s.main.inFlight[id]);
    hide C, SI.CountsExact, SI.StartedIffZero, SI.SkipClosed, SI.SkippedBlocked, SI.Ending, ChannelOk, NothingLost, PermitsOk;
  }

  lemma DispatchedEarlier(w: World, tr: seq<Sys>, acts: seq<Action>, i: nat, j: nat, id: Id)
    requires Sensible(w) && Run(w, tr, acts) && i < j < |acts| && |tr| == |acts| + 1 && acts[i] == Dispatch(id)
    ensures acts[j] != Dispatch(id)
  {
    hide *;
    if acts[j] == Dispatch(id) {
      DispatchShows(tr, acts, i, id);
      DispatchShows(tr, acts, j, id);
      var main, a, b := TwoSteps(w, tr, acts, i, j);
      SoundConfig(w);
      SP.DispatchedOnce(C(w), main, MainActs(tr, acts, j + 1), a, id);
    }
  }

  lemma DispatchShows(tr: seq<Sys>, acts: seq<Action>, i: nat, id: Id)
    requires i < |acts| && i < |tr| && acts[i] == Dispatch(id)
    ensures MainAction(tr[i], acts[i]).Some? && MainAction(tr[i], acts[i]).value == Scheduling.Dispatch(id)
  {
  }

  /** The scheduler run behind an engine run, and where two steps of the main loop are in it. */
  lemma TwoSteps(w: World, tr: seq<Sys>, acts: seq<Action>, i: nat, j: nat)
    returns (main: seq<Scheduling.State>, a: nat, b: nat)
    requires Sensible(w) && Run(w, tr, acts) && i < j < |acts| && |tr| == |acts| + 1
    requires MainAction(tr[i], acts[i]).Some? && MainAction(tr[j], acts[j]).Some?
    ensures Scheduling.Run(C(w), main, MainActs(tr, acts, j + 1)) && a < b < |MainActs(tr, acts, j + 1)|
    ensures MainActs(tr, acts, j + 1)[a] == MainAction(tr[i], acts[i]).value
    ensures MainActs(tr, acts, j + 1)[b] == MainAction(tr[j], acts[j]).value
  {
    hide *;
    main := SomeMainRun(w, tr, acts, j + 1);
    a, b := |MainActs(tr, acts, i)|, |MainActs(tr, acts, j)|;
    StepShows(tr, acts, i, j + 1);
    StepShows(tr, acts, j, j + 1);
    MainActsGrow(tr, acts, i + 1, j);
  }

  lemma SomeMainRun(w: World, tr: seq<Sys>, acts: seq<Action>, n: nat) returns (main: seq<Scheduling.State>)
    requires Run(w, tr, acts) && n <= |acts| && n <= |tr|
    ensures Scheduling.Run(C(w), main, MainActs(tr, acts, n))
  {
    RunRefines(w, tr, acts, n);
    hide Run, MainActs, C, Scheduling.Run;
    main :| Scheduling.Run(C(w), main, MainActs(tr, acts, n));
  }

  /** In every interleaving, drains included, the main loop takes one span per task at most. */
  lemma SpanTakenOnce(w: World, tr: seq<Sys>, acts: seq<Action>, i: nat, j: nat)
    requires Sensible(w) && Run(w, tr, acts) && i < |acts| && j < |acts|
    requires acts[i].Receive? && acts[j].Receive? && tr[i].done != [] && tr[j].done != []
    requires tr[i].done[0].id == tr[j].done[0].id
    ensures i == j
  {
    hide *;
    RunLength(w, tr, acts);
    if i < j { TakenEarlier(w, tr, acts, i, j); }
    if j < i { TakenEarlier(w, tr, acts, j, i); }
  }

  lemma TakenEarlier(w: World, tr: seq<Sys>, acts: seq<Action>, i: nat, j: nat)
    requires Sensible(w) && Run(w, tr, acts) && i < j < |acts| && |tr| == |acts| + 1
    requires acts[i].Receive? && acts[j].Receive? && tr[i].done != [] && tr[j].done != []
    ensures tr[i].done[0].id != tr[j].done[0].id
  {
    hide *;
    if tr[j].done[0].id == tr[i].done[0].id {
      ReceiveShows(tr, acts, i);
      ReceiveShows(tr, acts, j);
      var main, a, b := TwoSteps(w, tr, acts, i, j);
      SoundConfig(w);
      SP.ReceivedOnce(C(w), main, MainActs(tr, acts, j + 1), a, b, tr[i].done[0].id);
    }
  }

  lemma ReceiveShows(tr: seq<Sys>, acts: seq<Action>, i: nat)
    requires i < |acts| && i < |tr| && acts[i].Receive? && tr[i].done != []
    ensures MainAction(tr[i], acts[i]).Some? && SP.TakesSpanOf(MainAction(tr[i], acts[i]).value, tr[i].done[0].id)
  {
  }

  // ---------- cancellation ----------

  /** Only a fatal failure has cancelled anything; until then no span says so. */
  ghost predicate Honest(s: Sys) {
    && (s.cancelled ==> s.main.runFailed)
    && (!s.cancelled ==> forall id :: id in s.workers ==> !s.workers[id].span.status.Skipped?)
  }

  lemma MoveHonest(w: World, id: Id, k: Worker, m: Move)
    requires id in G(w) && CanMove(w, id, k, m) && !k.span.status.Skipped?
    requires !m.QuitAtPermit? && !m.QuitAtGlobal? && !m.QuitAtProvider?
    ensures !Moved(w, id, k, m).span.status.Skipped?
  {
    hide Templates.Resolve, MaxRetries, UsesProvider, DependencyGraph;
  }

  lemma WorkHonest(w: World, s: Sys, id: Id, m: Move)
    requires id in s.workers && id in G(w) && CanMove(w, id, s.workers[id], m) && Resources(w, s, id, m) && Honest(s)
    ensures Honest(WorkStep(w, s, id, m))
  {
    if !s.cancelled { MoveHonest(w, id, s.workers[id], m); }
    hide Moved, DependencyGraph, PolledBuckets, Grants;
  }

  lemma MainHonest(w: World, s: Sys, a: Action)
    requires EInv(w, s) && Enabled(w, s, a) && Honest(s) && (a.Dispatch? || a.Receive? || a.EndDrain? || a.Complete?)
    ensures Honest(Apply(w, s, a))
  {
    SP.DrainOnlyFailed(C(w), s.main, MainAction(s, a).value);
    hide EInv, Scheduling.Apply, Scheduling.Enabled, MainLoop.ConfigOf;
  }

  lemma StepHonest(w: World, s: Sys, a: Action)
    requires EInv(w, s) && Enabled(w, s, a) && Honest(s) && !a.Cancel?
    ensures Honest(Apply(w, s, a))
  {
    hide EInv, Enabled, WorkStep;
    match a {
      case Work(id, m) => WorkEnabled(w, s, id, m); WorkHonest(w, s, id, m); WorkApply(w, s, id, m);
      case Tick(dt) =>
      case _ => MainHonest(w, s, a);
    }
  }

  lemma {:induction false} RunHonest(w: World, tr: seq<Sys>, acts: seq<Action>, i: nat)
    requires Sensible(w) && Run(w, tr, acts) && NeverCancelled(acts) && i < |tr|
    ensures Honest(tr[i])
    decreases i
  {
    hide EInv, Apply, Enabled, Sensible;
    if i > 0 {
      RunHonest(w, tr, acts, i - 1);
      RunEInv(w, tr, acts, i - 1);
      assert StepAt(w, tr, acts, i - 1);
      StepHonest(w, tr[i - 1], acts[i - 1]);
    }
  }

  /** A span received before a fatal failure is not that of a cancelled task. */
  lemma ReceivedHonest(w: World, s: Sys, a: Action)
    requires EInv(w, s) && Enabled(w, s, a) && Honest(s)
    ensures var b := MainAction(s, a); b.Some? && b.value.Receive? ==> !b.value.span.status.Skipped?
  {
    hide SI.Partition, SI.ResultsMatch, SI.CountsExact, SI.StartedIffZero, SI.SkipClosed, SI.SkippedBlocked, SI.SnapshotsOk;
    if a.Receive? && s.main.phase.Running? {
      assert s.workers[s.done[0].id].span == s.done[0];
    }
  }

  /** Without outside cancellation the main loop's run is an uncancelled one. */
  lemma {:induction false} MainUncancelled(w: World, tr: seq<Sys>, acts: seq<Action>, n: nat)
    requires Sensible(w) && Run(w, tr, acts) && NeverCancelled(acts) && n <= |acts|
    ensures SP.Uncancelled(MainActs(tr, acts, n))
    decreases n
  {
    hide EInv, Apply, Enabled, Sensible, Honest, MainAction, NeverCancelled;
    if n > 0 {
      MainUncancelled(w, tr, acts, n - 1);
      RunEInv(w, tr, acts, n - 1);
      RunHonest(w, tr, acts, n - 1);
      assert StepAt(w, tr, acts, n - 1);
      ReceivedHonest(w, tr[n - 1], acts[n - 1]);
    }
  }

  /** The scheduler run behind an engine run. */
  lemma MainRun(w: World, tr: seq<Sys>, acts: seq<Action>, n: nat)
    returns (main: seq<Scheduling.State>, ms: seq<Scheduling.Action>)
    requires Sensible(w) && Run(w, tr, acts) && n <= |acts|
    ensures SI.Sound(C(w)) && Scheduling.Run(C(w), main, ms) && main[|ms|] == tr[n].main
    ensures NeverCancelled(acts) ==> SP.Uncancelled(ms)
  {
    SoundConfig(w);
    RunRefines(w, tr, acts, n);
    ms := MainActs(tr, acts, n);
    main :| Scheduling.Run(C(w), main, ms) && main[|ms|] == tr[n].main;
    hide *;
    if NeverCancelled(acts) { MainUncancelled(w, tr, acts, n); }
  }

  // ---------- fatal failures ----------

  /** The main loop takes, outside a drain, the span of a task that did not succeed and whose
      failure aborts the run. */
  ghost predicate Aborts(w: World, s: Sys, a: Action) {
    && a.Receive? && s.main.phase.Running?
    && s.done != [] && !s.done[0].status.Succeeded? && Fatal(w.wf, s.done[0].id)
  }

  lemma StepAborts(w: World, s: Sys, a: Action)
    requires UniqueIds(w.wf.tasks) && Enabled(w, s, a)
    ensures Apply(w, s, a).main.runFailed <==> s.main.runFailed || Aborts(w, s, a)
  {
    StepRefines(w, s, a);
    var b := MainAction(s, a);
    if b.Some? {
      SP.StepFailed(C(w), s.main, b.value);
      FatalTaken(w, s, a);
    }
    hide Apply, Enabled, Scheduling.Apply, Scheduling.Enabled, C, Fatal;
  }

  lemma FatalTaken(w: World, s: Sys, a: Action)
    requires UniqueIds(w.wf.tasks) && MainAction(s, a).Some?
    ensures SP.TakesFatal(C(w), MainAction(s, a).value) <==> Aborts(w, s, a)
  {
    if a.Receive? { MainLoop.FatalIdsExact(w.wf, s.done[0].id); }
    hide Fatal, MainLoop.FatalIds, UniqueIds;
  }

  /** Exactly when such a span has been taken the run has failed, in every interleaving. */
  lemma {:induction false} EngineFailedExactly(w: World, tr: seq<Sys>, acts: seq<Action>, n: nat)
    requires UniqueIds(w.wf.tasks) && Run(w, tr, acts) && n <= |acts|
    ensures tr[n].main.runFailed <==> exists i :: 0 <= i < n && Aborts(w, tr[i], acts[i])
    decreases n
  {
    hide Apply, Enabled, Aborts, UniqueIds;
    if n > 0 {
      EngineFailedExactly(w, tr, acts, n - 1);
      assert StepAt(w, tr, acts, n - 1);
      StepAborts(w, tr[n - 1], acts[n - 1]);
    }
  }

  lemma StepCancels(w: World, s: Sys, a: Action)
    requires UniqueIds(w.wf.tasks) && Enabled(w, s, a) && (s.main.runFailed ==> s.cancelled)
    ensures Apply(w, s, a).cancelled <==> s.cancelled || a.Cancel? || Aborts(w, s, a)
    ensures Apply(w, s, a).main.runFailed ==> Apply(w, s, a).cancelled
  {
    StepAborts(w, s, a);
    hide Aborts, UniqueIds, Scheduling.Apply, Scheduling.Enabled, C, WorkStep;
  }

  /** The tasks are cancelled exactly when something outside has cancelled the run or a fatal
      failure has been taken. */
  lemma {:induction false} CancelledExactly(w: World, tr: seq<Sys>, acts: seq<Action>, n: nat)
    requires UniqueIds(w.wf.tasks) && Run(w, tr, acts) && n <= |acts|
    ensures tr[n].cancelled <==> exists i :: 0 <= i < n && (acts[i].Cancel? || Aborts(w, tr[i], acts[i]))
    ensures tr[n].main.runFailed ==> tr[n].cancelled
    decreases n
  {
    hide Apply, Enabled, Aborts, UniqueIds;
    if n > 0 {
      CancelledExactly(w, tr, acts, n - 1);
      assert StepAt(w, tr, acts, n - 1);
      StepCancels(w, tr[n - 1], acts[n - 1]);
    }
  }

  // ---------- what holds for every interleaving ----------

  /** A finished run has given every task exactly one span, under its own id. */
  lemma EngineComplete(w: World, tr: seq<Sys>, acts: seq<Action>)
    requires Sensible(w) && Run(w, tr, acts) && tr[|acts|].main.phase.Finished?
    ensures tr[|acts|].main.spans.Keys == G(w).Keys
    ensures forall id :: id in G(w) ==> tr[|acts|].main.spans[id].id == id
  {
    var main, ms := MainRun(w, tr, acts, |acts|);
    SoundConfig(w);
    hide Run, Sensible, MainLoop.ConfigOf, Scheduling.Run, SI.Sound, DependencyGraph;
    SP.FinishedIsComplete(C(w), main, ms);
  }

  /** Without outside cancellation a finished run is reported as succeeded exactly when every
      task succeeded, for any mix of error policies. */
  lemma EngineStatusExact(w: World, tr: seq<Sys>, acts: seq<Action>)
    requires Sensible(w) && Run(w, tr, acts) && NeverCancelled(acts) && tr[|acts|].main.phase.Finished?
    ensures SP.Truthful(C(w), tr[|acts|].main)
  {
    var main, ms := MainRun(w, tr, acts, |acts|);
    hide Run, Sensible, MainLoop.ConfigOf, Scheduling.Run, SI.Sound, NeverCancelled, SP.Uncancelled;
    SP.StatusExact(C(w), main, ms);
  }

  /** Whatever is cancelled from outside, the report of a workflow whose tasks are all under
      `fail_fast` says succeeded exactly when every task succeeded. */
  lemma EngineStatusExactAllFatal(w: World, tr: seq<Sys>, acts: seq<Action>)
    requires Sensible(w) && Run(w, tr, acts) && G(w).Keys <= MainLoop.FatalIds(w.wf) && tr[|acts|].main.phase.Finished?
    ensures SP.Truthful(C(w), tr[|acts|].main)
  {
    var main, ms := MainRun(w, tr, acts, |acts|);
    assert Scheduling.Reaches(C(w), ms, tr[|acts|].main);
    SP.TruthfulIfAllFatal(C(w), ms, tr[|acts|].main);
  }

  /** Without outside cancellation and before a fatal failure, the skipped tasks are at every
      moment exactly the strict descendants of the failed ones. */
  lemma EngineSkippedExactly(w: World, tr: seq<Sys>, acts: seq<Action>, i: nat, id: Id)
    requires Sensible(w) && Run(w, tr, acts) && NeverCancelled(acts) && i < |tr| && !tr[i].main.runFailed
    ensures id in tr[i].main.spans && tr[i].main.spans[id].status.Skipped? <==> SP.BelowFailure(C(w), tr[i].main, id)
  {
    var main, ms := MainRun(w, tr, acts, i);
    hide Run, Sensible, MainLoop.ConfigOf, Scheduling.Run, SI.Sound, NeverCancelled, SP.Uncancelled, SP.BelowFailure;
    SP.SkippedExactly(C(w), main, ms, |ms|, id);
  }
}
