/** Workflow specifications and their validation. */
module Workflows {
  import opened Values
  import opened Graphs
  import CycleDetection

  datatype Retry = Retry(max: int, backoff: string, base: real, jitter: bool)

  datatype RateLimit = RateLimit(requests: int, per: real)

  datatype Task = Task(
    id: Id,
    skill: string,
    provider: string,
    dependsOn: seq<Id>,
    inputs: map<string, Value>,
    retry: Option<Retry>,
    onError: string)
  {
    function EffectiveRetry(dflt: Retry): Retry {
      if retry.Some? then retry.value else dflt
    }

    function EffectiveOnError(dflt: string): string {
      if onError != "" then onError else dflt
    }
  }

  datatype Workflow = Workflow(
    tasks: seq<Task>,
    maxParallel: int,
    rateLimit: Option<RateLimit>,
    providers: map<string, Option<RateLimit>>,
    defaultRetry: Retry,
    defaultOnError: string,
    output: string)

  /** Tasks indexed by id; a later task replaces an earlier one of the same id. */
  function TaskMap(tasks: seq<Task>): map<Id, Task> {
    if tasks == [] then map[]
    else var n := |tasks| - 1; TaskMap(tasks[..n])[tasks[n].id := tasks[n]]
  }

  function DependencyGraph(tasks: seq<Task>): Graph {
    var m := TaskMap(tasks);
    map id | id in m :: m[id].dependsOn
  }

  ghost predicate UniqueIds(tasks: seq<Task>) {
    forall i, j :: 0 <= i < j < |tasks| ==> tasks[i].id != tasks[j].id
  }

  ghost predicate HasId(tasks: seq<Task>, id: Id) {
    exists i :: 0 <= i < |tasks| && tasks[i].id == id
  }

  ghost predicate KnownProvider(wf: Workflow, t: Task) {
    t.provider != "" ==> t.provider in wf.providers
  }

  ghost predicate KnownDeps(wf: Workflow, t: Task) {
    forall k :: 0 <= k < |t.dependsOn| ==> HasId(wf.tasks, t.dependsOn[k])
  }

  /** What validation is meant to guarantee. */
  ghost predicate WellFormed(wf: Workflow) {
    && UniqueIds(wf.tasks)
    && (forall i :: 0 <= i < |wf.tasks| ==> KnownDeps(wf, wf.tasks[i]) && KnownProvider(wf, wf.tasks[i]))
    && Acyclic(DependencyGraph(wf.tasks))
  }

  lemma {:induction false} TaskMapKeys(tasks: seq<Task>)
    ensures forall id :: id in TaskMap(tasks) <==> HasId(tasks, id)
    ensures forall id :: id in TaskMap(tasks) ==> TaskMap(tasks)[id].id == id
    decreases |tasks|
  {
    if tasks != [] {
      var n := |tasks| - 1;
      var m := TaskMap(tasks[..n]);
      TaskMapKeys(tasks[..n]);
      forall id ensures id in TaskMap(tasks) <==> HasId(tasks, id) {
        if HasId(tasks[..n], id) {
          var i :| 0 <= i < n && tasks[..n][i].id == id;
          assert tasks[i].id == id;
        }
        if i :| 0 <= i < |tasks| && tasks[i].id == id {
          if i < n { assert tasks[..n][i].id == id; }
        }
      }
    }
  }

  lemma {:induction false} TaskMapFinds(tasks: seq<Task>, i: int)
    requires UniqueIds(tasks) && 0 <= i < |tasks|
    ensures tasks[i].id in TaskMap(tasks) && TaskMap(tasks)[tasks[i].id] == tasks[i]
    decreases |tasks|
  {
    var n := |tasks| - 1;
    if i < n {
      assert tasks[..n][i] == tasks[i];
      TaskMapFinds(tasks[..n], i);
    }
  }

  lemma {:induction false} TaskMapSize(tasks: seq<Task>)
    requires UniqueIds(tasks)
    ensures |TaskMap(tasks)| == |tasks|
    decreases |tasks|
  {
    if tasks != [] {
      var n := |tasks| - 1;
      TaskMapSize(tasks[..n]);
      TaskMapKeys(tasks[..n]);
      assert tasks[n].id !in TaskMap(tasks[..n]) by {
        assert forall k :: 0 <= k < n ==> tasks[..n][k].id == tasks[k].id;
      }
    }
  }

  /** Known dependencies make the dependency graph closed. */
  lemma GraphClosed(wf: Workflow)
    requires forall i :: 0 <= i < |wf.tasks| ==> KnownDeps(wf, wf.tasks[i])
    ensures Closed(DependencyGraph(wf.tasks))
  {
    var m := TaskMap(wf.tasks);
    TaskMapKeys(wf.tasks);
    forall n, d | n in m && d in m[n].dependsOn ensures d in m {
      TaskMapIsTask(wf.tasks, n);
      var i :| 0 <= i < |wf.tasks| && wf.tasks[i] == m[n];
      var k :| 0 <= k < |m[n].dependsOn| && m[n].dependsOn[k] == d;
      assert KnownDeps(wf, wf.tasks[i]);
    }
  }

  lemma {:induction false} TaskMapIsTask(tasks: seq<Task>, id: Id)
    requires id in TaskMap(tasks)
    ensures exists i :: 0 <= i < |tasks| && tasks[i] == TaskMap(tasks)[id]
    decreases |tasks|
  {
    var n := |tasks| - 1;
    if tasks[n].id == id {
      assert tasks[n] == TaskMap(tasks)[id];
    } else {
      TaskMapIsTask(tasks[..n], id);
      var i :| 0 <= i < n && tasks[..n][i] == TaskMap(tasks[..n])[id];
      assert tasks[i] == TaskMap(tasks)[id];
    }
  }

  /** The failure of the task aborts the run: the task says so itself, or says nothing and the
      workflow says so. */
  ghost predicate Fatal(wf: Workflow, id: Id) {
    exists t :: t in wf.tasks && t.id == id &&
      (t.onError == "fail_fast" || (t.onError == "" && wf.defaultOnError == "fail_fast"))
  }

  datatype SpecError =
    | DuplicateId(id: Id)
    | UnknownDep(task: Id, dep: Id)
    | UnknownProvider(task: Id, provider: string)
    | Cycle(node: Id, dep: Id)

  /** An error report is truthful. */
  ghost predicate Justified(wf: Workflow, e: SpecError) {
    match e
    case DuplicateId(id) => exists i, j :: 0 <= i < j < |wf.tasks| && wf.tasks[i].id == id && wf.tasks[j].id == id
    case UnknownDep(task, dep) =>
      !HasId(wf.tasks, dep) && exists i :: 0 <= i < |wf.tasks| && wf.tasks[i].id == task && dep in wf.tasks[i].dependsOn
    case UnknownProvider(task, p) =>
      p !in wf.providers && exists i :: 0 <= i < |wf.tasks| && wf.tasks[i].id == task && wf.tasks[i].provider == p
    case Cycle(node, dep) => CycleDetection.EdgeOnCycle(DependencyGraph(wf.tasks), node, dep)
  }

  /** Accepts exactly the well-formed workflows; a rejection names a real defect. */
  method Validate(wf: Workflow) returns (err: Option<SpecError>)
    ensures err.None? <==> WellFormed(wf)
    ensures err.Some? ==> Justified(wf, err.value)
  {
    var ids: set<Id> := {};
    for i := 0 to |wf.tasks|
      invariant forall id :: id in ids <==> exists k :: 0 <= k < i && wf.tasks[k].id == id
      invariant forall k, l :: 0 <= k < l < i ==> wf.tasks[k].id != wf.tasks[l].id
    {
      if wf.tasks[i].id in ids {
        return Some(DuplicateId(wf.tasks[i].id));
      }
      ids := ids + {wf.tasks[i].id};
    }
    assert forall id :: id in ids <==> HasId(wf.tasks, id);
    for i := 0 to |wf.tasks|
      invariant forall k :: 0 <= k < i ==> KnownDeps(wf, wf.tasks[k]) && KnownProvider(wf, wf.tasks[k])
    {
      var t := wf.tasks[i];
      for j := 0 to |t.dependsOn|
        invariant forall k :: 0 <= k < j ==> HasId(wf.tasks, t.dependsOn[k])
      {
        if t.dependsOn[j] !in ids {
          assert !KnownDeps(wf, t);
          return Some(UnknownDep(t.id, t.dependsOn[j]));
        }
      }
      if t.provider != "" && t.provider !in wf.providers {
        assert !KnownProvider(wf, t);
        return Some(UnknownProvider(t.id, t.provider));
      }
    }
    GraphClosed(wf);
    var v, rank := CycleDetection.DetectCycle(DependencyGraph(wf.tasks));
    err := match v
      case NoCycle => None
      case CycleAt(node, dep) => Some(Cycle(node, dep));
  }
}
