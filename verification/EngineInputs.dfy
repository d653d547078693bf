/** What the executor is called with: in every interleaving a reference to a dependency's output
    arrives as that output. */
module EngineInputs {
  import opened Values
  import opened Graphs
  import opened Workflows
  import TaskExecution
  import Templates
  import TemplateMeaning
  import opened Confluence
  import opened Engine
  import opened EngineInvariant
  import EngineRuns

  /** From the first attempt until it sends its span, a goroutine works with the inputs that
      resolved against its snapshot. */
  ghost predicate WorksOn(w: World, id: Id, k: Worker)
    requires id in G(w)
  {
    k.pc.Start? || k.pc.Sending? || k.pc.Sent? ||
    Templates.Resolve(Obj(TaskOf(w, id).inputs), TaskExecution.ScopeOf(w.inputs, k.seen), w.json) == Some(k.inputs)
  }

  ghost predicate AllWorkOn(w: World, s: Sys) {
    forall id :: id in s.workers && id in G(w) ==> WorksOn(w, id, s.workers[id])
  }

  lemma MoveWorksOn(w: World, id: Id, k: Worker, m: Move)
    requires id in G(w) && CanMove(w, id, k, m) && WorksOn(w, id, k)
    ensures WorksOn(w, id, Moved(w, id, k, m))
  {
    hide Templates.Resolve, TaskExecution.ScopeOf, TaskExecution.AfterCall, MaxRetries, UsesProvider, TaskOf;
  }

  lemma WorkWorksOn(w: World, s: Sys, id: Id, m: Move)
    requires id in s.workers && id in G(w) && CanMove(w, id, s.workers[id], m) && AllWorkOn(w, s)
    ensures AllWorkOn(w, WorkStep(w, s, id, m))
  {
    WorkMoves(w, s, id, m);
    MoveWorksOn(w, id, s.workers[id], m);
    hide WorksOn, Moved, WorkStep, CanMove, G;
  }

  lemma MainWorksOn(w: World, s: Sys, a: Action)
    requires Enabled(w, s, a) && (a.Dispatch? || a.Receive? || a.EndDrain? || a.Complete?) && AllWorkOn(w, s)
    ensures AllWorkOn(w, Apply(w, s, a))
  {
    MainWorkers(w, s, a);
    hide Enabled, Apply, G, WorksOn;
    if a.Dispatch? && a.id in G(w) {
      assert WorksOn(w, a.id, NewWorker(a.id, s.main.results)) by { StartWorksOn(w, a.id, s.main.results); }
    }
  }

  lemma StartWorksOn(w: World, id: Id, seen: map<Id, Value>)
    requires id in G(w)
    ensures WorksOn(w, id, NewWorker(id, seen))
  {
  }

  lemma QuietWorksOn(w: World, s: Sys, a: Action)
    requires Enabled(w, s, a) && (a.Cancel? || a.Tick?) && AllWorkOn(w, s)
    ensures AllWorkOn(w, Apply(w, s, a))
  {
    hide WorksOn, G;
  }

  lemma StepWorksOn(w: World, s: Sys, a: Action)
    requires EInv(w, s) && Enabled(w, s, a) && AllWorkOn(w, s)
    ensures AllWorkOn(w, Apply(w, s, a))
  {
    hide *;
    match a {
      case Work(id, m) =>
        WorkEnabled(w, s, id, m);
        WorkApply(w, s, id, m);
        WorkWorksOn(w, s, id, m);
      case Cancel => QuietWorksOn(w, s, a);
      case Tick(_) => QuietWorksOn(w, s, a);
      case _ => MainWorksOn(w, s, a);
    }
  }

  lemma {:induction false} RunWorksOn(w: World, tr: seq<Sys>, acts: seq<Action>, i: nat)
    requires Sensible(w) && Run(w, tr, acts) && i < |tr|
    ensures AllWorkOn(w, tr[i])
    decreases i
  {
    hide EInv, Apply, Enabled, Sensible, WorksOn, G;
    if i > 0 {
      RunWorksOn(w, tr, acts, i - 1);
      RunEInv(w, tr, acts, i - 1);
      assert StepAt(w, tr, acts, i - 1);
      StepWorksOn(w, tr[i - 1], acts[i - 1]);
    }
  }

  lemma CallAllowed(w: World, tr: seq<Sys>, acts: seq<Action>, i: nat, id: Id)
    requires Run(w, tr, acts) && i < |acts| && i < |tr| && acts[i] == Work(id, Call)
    ensures id in tr[i].workers && id in G(w) && tr[i].workers[id].pc.MayCall?
  {
    assert StepAt(w, tr, acts, i);
    hide Apply, G, Init;
  }

  /** What the goroutine that may make its call works with. */
  lemma CallerWorksOn(w: World, s: Sys, id: Id)
    requires AllWorkOn(w, s) && id in s.workers && id in G(w) && s.workers[id].pc.MayCall?
    ensures var k := s.workers[id];
            Templates.Resolve(Obj(TaskOf(w, id).inputs), TaskExecution.ScopeOf(w.inputs, k.seen), w.json) == Some(k.inputs)
  {
    assert WorksOn(w, id, s.workers[id]);
    hide G, Templates.Resolve;
  }

  /** Wherever a task's inputs have a field whose template is a reference to the output of one of
      its dependencies, the executor is called with that dependency's output, a value of whatever
      kind, in this field, and the dependency has succeeded. */
  lemma InputIsOutput(w: World, tr: seq<Sys>, acts: seq<Action>, i: nat, id: Id, field: string, s: string, d: Id)
    requires Sensible(w) && Run(w, tr, acts) && i < |acts| && i < |tr|
    requires acts[i] == Work(id, Call) && id in TaskMap(w.wf.tasks)
    requires var t := TaskMap(w.wf.tasks)[id];
             && field in t.inputs && t.inputs[field] == Str(s) && d in t.dependsOn
             && '.' !in d && TemplateMeaning.RefersTo(s, d + ".output")
    ensures id in tr[i].workers && d in tr[i].main.spans && tr[i].main.spans[d].status.Succeeded?
    ensures var v := tr[i].workers[id].inputs;
            && v.Obj? && v.fields.Keys == TaskMap(w.wf.tasks)[id].inputs.Keys
            && v.fields[field] == tr[i].main.spans[d].output
  {
    RunEInv(w, tr, acts, i);
    RunWorksOn(w, tr, acts, i);
    CallAllowed(w, tr, acts, i, id);
    hide Sensible, Run, TaskMap;
    ReferenceFilled(w, tr[i], id, field, s, d);
  }

  lemma DependencyEdge(w: World, id: Id, d: Id)
    requires Sensible(w) && id in G(w) && d in TaskOf(w, id).dependsOn
    ensures Edge(C(w).g, id, d)
  {
    hide TaskMap, Acyclic;
  }

  lemma ReferenceFilled(w: World, s: Sys, id: Id, field: string, text: string, d: Id)
    requires Sensible(w) && EInv(w, s) && AllWorkOn(w, s) && id in s.workers && id in G(w) && s.workers[id].pc.MayCall?
    requires var t := TaskOf(w, id);
             && field in t.inputs && t.inputs[field] == Str(text) && d in t.dependsOn
             && '.' !in d && TemplateMeaning.RefersTo(text, d + ".output")
    ensures d in s.main.spans && s.main.spans[d].status.Succeeded?
    ensures var v := s.workers[id].inputs;
            v.Obj? && v.fields.Keys == TaskOf(w, id).inputs.Keys && v.fields[field] == s.main.spans[d].output
  {
    hide *;
    EngineRuns.SeesDependencies(w, s, id);
    CallerWorksOn(w, s, id);
    DependencyEdge(w, id, d);
    var k := s.workers[id];
    TemplateMeaning.ResolveObject(TaskOf(w, id).inputs, TaskExecution.ScopeOf(w.inputs, k.seen), w.json, k.inputs);
    TaskExecution.OutputReference(text, d, w.inputs, k.seen, w.json);
  }

  /** A task whose only input is such a reference is called with that output alone. */
  lemma OnlyInput(w: World, tr: seq<Sys>, acts: seq<Action>, i: nat, id: Id, field: string, d: Id)
    requires Sensible(w) && Run(w, tr, acts) && i < |acts| && i < |tr|
    requires acts[i] == Work(id, Call) && id in TaskMap(w.wf.tasks) && d in TaskMap(w.wf.tasks)[id].dependsOn
    requires '.' !in d && '}' !in d && (d != "" ==> !TemplateMeaning.White(d[0]))
    requires TaskMap(w.wf.tasks)[id].inputs == map[field := Str("${" + d + ".output}")]
    ensures id in tr[i].workers && d in tr[i].main.spans
    ensures tr[i].workers[id].inputs == Obj(map[field := tr[i].main.spans[d].output])
  {
    hide *;
    TaskExecution.PlainOutput(d);
    InputIsOutput(w, tr, acts, i, id, field, "${" + d + ".output}", d);
    var v := tr[i].workers[id].inputs;
    assert v.fields.Keys == {field};
    assert v.fields == map[field := tr[i].main.spans[d].output];
  }
}
