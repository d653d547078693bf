/** Exactly when the reported status can lie about a run that is cancelled from outside: for all
    workflows with given dependencies and error policies, and for one given workflow. */
module CancellationExact {
  import opened Values
  import opened Graphs
  import opened Workflows
  import SP = SchedulerProperties
  import MainLoop
  import TaskExecution
  import Templates
  import opened Confluence
  import opened Engine
  import opened EngineInvariant
  import opened EngineRuns
  import opened EngineCancellation

  /** Whatever is cancelled from outside, finished runs report success exactly when every task
      succeeded. */
  ghost predicate EngineTruthful(w: World) {
    forall tr: seq<Sys>, acts: seq<Action> ::
      Run(w, tr, acts) && tr[|acts|].main.phase.Finished? ==> SP.Truthful(C(w), tr[|acts|].main)
  }

  lemma LieIsUntruthful(w: World, cut: set<Id>, tr: seq<Sys>, acts: seq<Action>)
    requires Lie(w, cut, tr, acts) && cut <= G(w).Keys && cut != {}
    ensures !EngineTruthful(w)
  {
    RunLength(w, tr, acts);
    hide Run, C, G, SP.Status;
    SkippedIsUntruthful(w, cut, tr[|acts|].main);
  }

  // ---------- tasks that never fail ----------

  /** The inputs of every task resolve, whatever it sees, it may make an attempt, and no executor
      call fails. */
  ghost predicate Obliging(w: World) {
    && (forall id, seen :: id in G(w) ==> Starts(w, id, seen))
    && (forall id, v, n :: !TaskExecution.Failing(w.skill(id, v, n)))
  }

  lemma ObligingSucceeds(w: World, id: Id, seen: map<Id, Value>)
    requires Obliging(w) && id in G(w)
    ensures SpanIn(w, id, seen).status.Succeeded?
  {
    TaskMapKeys(w.wf.tasks);
    assert Starts(w, id, seen);
    var t := TaskOf(w, id);
    var v := Templates.Resolve(Obj(t.inputs), TaskExecution.ScopeOf(w.inputs, seen), w.json).value;
    hide Templates.Resolve, TaskExecution.ScopeOf, DependencyGraph, TaskMap;
    TaskExecution.RunFromStep(t.id, v, MaxRetries(w, id), w.skill, AlwaysPass(), 1, TaskExecution.FreshSpan(t.id));
  }

  lemma ObligingPlan(w: World, cut: set<Id>)
    requires Sensible(w) && Obliging(w)
    ensures PlanWorks(w, cut)
  {
    hide Planned, Enabled, EInv, Sensible, Obliging, Run, G, Starts, SpanIn;
    forall tr: seq<Sys>, acts: seq<Action>, id |
      Run(w, tr, acts) && |tr| == |acts| + 1 && Planned(w, cut, tr[|acts|]) && Enabled(w, tr[|acts|], Dispatch(id))
      ensures Fits(w, cut, id, tr[|acts|].main.results)
    {
      RunEInv(w, tr, acts, |acts|);
      DispatchKnown(w, tr[|acts|], id);
      ObligingSucceeds(w, id, tr[|acts|].main.results);
      ObligingStarts(w, id, tr[|acts|].main.results);
    }
    forall tr: seq<Sys>, acts: seq<Action> | Run(w, tr, acts) ensures |tr| == |acts| + 1 { RunLength(w, tr, acts); }
  }

  lemma ObligingStarts(w: World, id: Id, seen: map<Id, Value>)
    requires Obliging(w) && id in G(w)
    ensures Starts(w, id, seen)
  {
    hide Starts, G;
  }

  /** If no task ever fails, any one task under `continue` can be the only one cut off: the other
      tasks that do not depend on it succeed, the run is cancelled, the task gives up waiting for
      its permit, and the report says succeeded. */
  lemma CancelledEngineReportsSuccess(w: World, x: Id) returns (tr: seq<Sys>, acts: seq<Action>)
    requires Sensible(w) && UniqueIds(w.wf.tasks) && Obliging(w) && x in G(w) && x !in MainLoop.FatalIds(w.wf)
    ensures Lie(w, {x}, tr, acts)
  {
    ObligingPlan(w, {x});
    hide Sensible, UniqueIds, Obliging, PlanWorks, Lie, G;
    tr, acts := PlanLies(w, {x});
  }

  // ---------- all workflows with the same dependencies and policies ----------

  /** The task without templates and retries. */
  function Plain(t: Task): Task {
    t.(inputs := map[], retry := Some(Retry(0, "none", 0.0, false)))
  }

  function PlainTasks(tasks: seq<Task>): (r: seq<Task>)
    ensures |r| == |tasks| && forall i :: 0 <= i < |r| ==> r[i] == Plain(tasks[i])
  {
    seq(|tasks|, i requires 0 <= i < |tasks| => Plain(tasks[i]))
  }

  lemma {:induction false} PlainMap(tasks: seq<Task>)
    ensures TaskMap(PlainTasks(tasks)).Keys == TaskMap(tasks).Keys
    ensures forall id :: id in TaskMap(tasks) ==> TaskMap(PlainTasks(tasks))[id] == Plain(TaskMap(tasks)[id])
    decreases |tasks|
  {
    if tasks != [] {
      var n := |tasks| - 1;
      PlainMap(tasks[..n]);
      assert PlainTasks(tasks)[..n] == PlainTasks(tasks[..n]);
    }
  }

  function PlainWorld(w: World): World {
    World(w.wf.(tasks := PlainTasks(w.wf.tasks)), w.inputs,
          (id, v, n) => TaskExecution.Attempt(None, None, Null, [], None), w.json)
  }

  lemma PlainConfig(w: World)
    ensures C(PlainWorld(w)) == C(w) && G(PlainWorld(w)) == G(w)
  {
    PlainMap(w.wf.tasks);
    hide TaskMap;
    assert FatalSame(w);
  }

  ghost predicate FatalSame(w: World) {
    MainLoop.FatalIds(PlainWorld(w).wf) == MainLoop.FatalIds(w.wf)
  }

  lemma PlainObliging(w: World)
    ensures Obliging(PlainWorld(w))
  {
    PlainMap(w.wf.tasks);
    var p := PlainWorld(w);
    forall id, seen | id in G(p) ensures Starts(p, id, seen) {
      assert TaskOf(p, id) == Plain(TaskOf(w, id));
      hide TaskMap;
    }
  }

  lemma PlainSensible(w: World)
    requires Sensible(w) && UniqueIds(w.wf.tasks)
    ensures Sensible(PlainWorld(w)) && UniqueIds(PlainWorld(w).wf.tasks)
  {
    PlainConfig(w);
    hide DependencyGraph;
  }

  /** Over all workflows with the same dependencies and error policies, whatever their templates,
      retries, limits and executors: the status can be trusted under any outside cancellation
      exactly when every task is under `fail_fast`. */
  lemma EngineTruthfulExactly(w: World)
    requires Sensible(w) && UniqueIds(w.wf.tasks)
    ensures (forall v: World :: Sensible(v) && UniqueIds(v.wf.tasks) && C(v) == C(w) ==> EngineTruthful(v)) <==>
            G(w).Keys <= MainLoop.FatalIds(w.wf)
  {
    KnownConfig(w);
    if G(w).Keys <= MainLoop.FatalIds(w.wf) {
      forall v: World | Sensible(v) && UniqueIds(v.wf.tasks) && C(v) == C(w) ensures EngineTruthful(v) {
        KnownConfig(v);
        AllFatalTruthful(v);
      }
    } else {
      hide Sensible, UniqueIds, EngineTruthful, G, C, MainLoop.FatalIds;
      var x :| x in G(w).Keys && x !in MainLoop.FatalIds(w.wf);
      var p := PlainWorld(w);
      PlainConfig(w);
      KnownConfig(p);
      PlainSensible(w);
      PlainObliging(w);
      var tr, acts := CancelledEngineReportsSuccess(p, x);
      LieIsUntruthful(p, {x}, tr, acts);
    }
  }

  lemma AllFatalTruthful(w: World)
    requires Sensible(w) && G(w).Keys <= MainLoop.FatalIds(w.wf)
    ensures EngineTruthful(w)
  {
    hide Sensible, G, MainLoop.FatalIds, C, SP.Truthful, Run;
    forall tr: seq<Sys>, acts: seq<Action> | Run(w, tr, acts) && |tr| == |acts| + 1 && tr[|acts|].main.phase.Finished?
      ensures SP.Truthful(C(w), tr[|acts|].main)
    {
      EngineStatusExactAllFatal(w, tr, acts);
    }
    forall tr: seq<Sys>, acts: seq<Action> | Run(w, tr, acts) ensures |tr| == |acts| + 1 { RunLength(w, tr, acts); }
  }
}
