/** The Go scheduler's Run: dispatch everything that is ready, take one span, update, repeat.
    Which task in flight finishes next, and with what span, is arbitrary. */
module SchedulerRun {
  import opened Values
  import opened Graphs
  import opened Workflows
  import opened Spans
  import opened Scheduling
  import opened SchedulerInvariant
  import opened MainLoop
  import SchedulerProperties
  import CriticalPath
  import CriticalPathGo
  import Templates
  import TaskExecution
  import TemplateMeaning

  datatype Report = Report(
    status: Status,
    tasks: seq<Span>,
    criticalPath: seq<Id>,
    totals: Totals,
    errors: seq<string>,
    output: Value)

  /** The loop takes the span of a task that did not succeed and whose failure aborts the run. */
  ghost predicate Aborts(wf: Workflow, a: Action) {
    a.Receive? && !a.span.status.Succeeded? && Fatal(wf, a.span.id)
  }

  /** The span a goroutine sends back, by receive number, task and visible results. */
  type Outcome = (nat, Id, map<Id, Value>) -> Span

  ghost predicate Plausible(outcome: Outcome) {
    forall n, id, seen :: outcome(n, id, seen).id == id && outcome(n, id, seen).durationMs >= 0
  }

  /** The variables of the main loop. */
  class Loop {
    const wf: Workflow
    const children: map<Id, seq<Id>>
    var indeg: map<Id, int>
    var ready: seq<Id>
    var inFlight: map<Id, map<Id, Value>>
    var results: map<Id, Value>
    var spans: map<Id, Span>
    var totals: Totals
    var errors: seq<string>
    var runFailed: bool
    ghost var phase: Phase

    ghost function C(): Config {
      ConfigOf(wf)
    }

    ghost function Abs(): State
      reads this
    {
      State(phase, runFailed, indeg, Elements(ready), inFlight, results, spans, totals, errors)
    }

    ghost predicate Valid()
      reads this
    {
      && WellFormed(wf)
      && ChildrenExact(C().g, children)
      && NoRepeats(ready)
      && Inv(C(), Abs())
    }

    constructor (wf: Workflow, indeg: map<Id, int>, children: map<Id, seq<Id>>, ready: seq<Id>)
      requires WellFormed(wf) && ChildrenExact(DependencyGraph(wf.tasks), children)
      requires indeg == Init(ConfigOf(wf)).indeg
      requires NoRepeats(ready) && Elements(ready) == Init(ConfigOf(wf)).ready
      ensures Valid() && Abs() == Init(C()) && this.wf == wf
    {
      this.wf := wf;
      this.children := children;
      this.indeg, this.ready := indeg, ready;
      inFlight, results, spans := map[], map[], map[];
      totals, errors, runFailed, phase := NO_TOTALS, [], false, Running;
      new;
      ConfigSound(wf);
      InitInv(C());
    }

    /** Hands the task at the head of the queue to a goroutine, with a copy of the results. */
    method DispatchNext()
      requires Valid() && phase.Running? && ready != []
      modifies this
      ensures Valid() && Enabled(C(), old(Abs()), Dispatch(old(ready)[0]))
      ensures Abs() == Apply(C(), old(Abs()), Dispatch(old(ready)[0])) && ready == old(ready)[1..]
    {
      hide Inv, ChildrenExact, WellFormed;
      ConfigSound(wf);
      ghost var s := Abs();
      var tid := ready[0];
      PopElement(ready);
      StepInv(C(), s, Dispatch(tid));
      ready := ready[1..];
      inFlight := inFlight[tid := results];
    }

    /** Takes one span from the channel and acts on its status. */
    method Receive(span: Span)
      requires Valid() && phase.Running? && span.id in inFlight
      modifies this
      ensures Valid() && Enabled(C(), old(Abs()), Action.Receive(span))
      ensures Abs() == Apply(C(), old(Abs()), Action.Receive(span))
      ensures phase.Draining? <==> Aborts(wf, Action.Receive(span))
    {
      ReceiveAborts(span);
      hide ChildrenExact, WellFormed, Inv, AfterSuccess, AfterFailure, AfterFatal, Aborts;
      ConfigSound(wf);
      ReceiveFacts(span);
      StepInv(C(), Abs(), Action.Receive(span));
      GraphKeys();
      if span.status.Succeeded? {
        TakeSuccess(span);
      } else if TaskMap(wf.tasks)[span.id].EffectiveOnError(wf.defaultOnError) == "fail_fast" {
        TakeFatal(span);
      } else {
        TakeFailure(span);
      }
    }

    /** Bookkeeping every received span causes. */
    method Record(span: Span)
      modifies this`inFlight, this`spans, this`totals
      ensures Abs() == Recorded(old(Abs()), span)
    {
      inFlight := inFlight - {span.id};
      spans := spans[span.id := span];
      totals := Plus(totals, Contribution(span));
    }

    /** Publishes the output and queues the dependents it was the last to release. */
    method TakeSuccess(span: Span)
      requires ChildrenExact(C().g, children) && NoRepeats(ready)
      requires Elements(ready) !! NewlyReady(C().g, indeg, span.id)
      requires indeg.Keys == C().g.Keys && forall k :: k in C().g ==> indeg[k] >= Count(C().g[k], span.id)
      modifies this
      ensures Abs() == AfterSuccess(C(), old(Abs()), span) && NoRepeats(ready)
    {
      hide ChildrenExact, Released, NewlyReady, Contribution, TaskMap;
      Record(span);
      results := results[span.id := span.output];
      var queue;
      indeg, queue := ReleaseChildren(DependencyGraph(wf.tasks), children, indeg, span.id);
      AppendQueue(ready, queue);
      ready := ready + queue;
    }

    /** Records a failure that aborts the run. */
    method TakeFatal(span: Span)
      modifies this
      ensures Abs() == AfterFatal(old(Abs()), span) && ready == old(ready)
    {
      Record(span);
      errors := errors + [span.error];
      runFailed, phase := true, Draining;
    }

    /** Records a failure the run survives, and skips what depends on the task. */
    method TakeFailure(span: Span)
      requires ChildrenExact(C().g, children) && Closed(C().g) && spans.Keys + {span.id} <= C().g.Keys
      requires forall m, d :: Edge(C().g, m, d) && d in spans[span.id := span] && DependsOn(C().g, d, span.id) ==>
                 m in spans[span.id := span]
      modifies this
      ensures Abs() == AfterFailure(C(), old(Abs()), span) && ready == old(ready)
    {
      hide ChildrenExact, WithDescendantsSkipped, Contribution, TaskMap, DependsOn, Closed, Edge;
      Record(span);
      errors := errors + [span.error];
      spans := MarkDescendantsSkipped(DependencyGraph(wf.tasks), children, spans, span.id);
    }

    lemma GraphKeys()
      ensures forall id :: id in C().g <==> id in TaskMap(wf.tasks)
      ensures forall id :: id in C().g ==>
        (id in C().failFast <==> TaskMap(wf.tasks)[id].EffectiveOnError(wf.defaultOnError) == "fail_fast")
    {
    }

    lemma ReceiveAborts(span: Span)
      requires Valid() && Enabled(C(), Abs(), Action.Receive(span))
      ensures Apply(C(), Abs(), Action.Receive(span)).phase.Draining? <==> Aborts(wf, Action.Receive(span))
    {
      FatalIdsExact(wf, span.id);
      hide FatalIds, Fatal, Inv, ChildrenExact;
    }

    /** What the helpers need to know when a span arrives. */
    lemma ReceiveFacts(span: Span)
      requires Valid() && phase.Running? && span.id in inFlight
      ensures span.id in C().g && indeg.Keys == C().g.Keys && Closed(C().g) && spans.Keys + {span.id} <= C().g.Keys
      ensures forall k :: k in C().g ==> indeg[k] >= Count(C().g[k], span.id)
      ensures Elements(ready) !! NewlyReady(C().g, indeg, span.id)
      ensures !span.status.Succeeded? ==>
                forall m, d :: Edge(C().g, m, d) && d in spans[span.id := span] && DependsOn(C().g, d, span.id) ==>
                  m in spans[span.id := span]
    {
      ConfigSound(wf);
      var s := Abs();
      forall k | k in C().g
        ensures indeg[k] >= Count(C().g[k], span.id) && (Count(C().g[k], span.id) > 0 <==> span.id in C().g[k])
      {
        SuccessCounts(C(), s, span, k);
      }
      NoSelfDependency(C().g, span.id);
      forall m, d | Edge(C().g, m, d) && d in spans[span.id := span] && DependsOn(C().g, d, span.id)
        ensures m in spans[span.id := span]
      {
        DescendantsBlocked(C(), s, span.id, d);
        assert SkipClosed(C(), s);
      }
    }

    /** Takes one more span while the run is being aborted. */
    method DrainOne(span: Span)
      requires Valid() && phase.Draining? && span.id in inFlight
      modifies this
      ensures Valid() && Enabled(C(), old(Abs()), Drain(span)) && Abs() == Apply(C(), old(Abs()), Drain(span))
    {
      hide Inv, ChildrenExact, WellFormed;
      ConfigSound(wf);
      StepInv(C(), Abs(), Drain(span));
      inFlight := inFlight - {span.id};
      spans := spans[span.id := span];
    }

    method FinishDrain()
      requires Valid() && phase.Draining? && inFlight == map[]
      modifies this
      ensures Valid() && Enabled(C(), old(Abs()), EndDrain) && Abs() == Apply(C(), old(Abs()), EndDrain)
    {
      hide Inv, ChildrenExact, WellFormed;
      ConfigSound(wf);
      StepInv(C(), Abs(), EndDrain);
      ready := [];
      spans := MarkAllUndispatchedSkipped(wf, spans);
      phase := Finished;
      assert Elements([]) == {};
    }

    /** The loop condition has become false. */
    ghost method Leave()
      requires Valid() && phase.Running? && ready == [] && inFlight == map[]
      modifies this`phase
      ensures Valid() && Enabled(C(), old(Abs()), Complete) && Abs() == Apply(C(), old(Abs()), Complete)
    {
      hide Inv, ChildrenExact, WellFormed;
      ConfigSound(wf);
      assert Elements([]) == {};
      StepInv(C(), Abs(), Complete);
      phase := Finished;
    }
  }

  // ---------- the run ----------

  ghost predicate NonNegative(spans: map<Id, Span>) {
    forall id :: id in spans ==> spans[id].durationMs >= 0
  }

  /** What a step does to the sizes and durations the loop relies on. */
  lemma StepEffects(c: Config, s: State, a: Action)
    requires Sound(c) && Inv(c, s) && Enabled(c, s, a) && NonNegative(s.spans)
    requires a.Receive? || a.Drain? ==> a.span.durationMs >= 0
    ensures NonNegative(Apply(c, s, a).spans)
    ensures |Apply(c, s, a).spans.Keys| >= |s.spans.Keys| + if a.Receive? || a.Drain? then 1 else 0
    ensures 0 <= SchedulerProperties.WorkLeft(c, Apply(c, s, a)) < SchedulerProperties.WorkLeft(c, s)
  {
    hide *;
    var t := Apply(c, s, a);
    SchedulerProperties.StepShrinks(c, s, a);
    StepInv(c, s, a);
    WorkNotNegative(c, t);
    StepSpans(c, s, a);
    if a.Receive? || a.Drain? {
      SchedulerProperties.SubsetSize(s.spans.Keys + {a.span.id}, t.spans.Keys);
    } else {
      SchedulerProperties.SubsetSize(s.spans.Keys, t.spans.Keys);
    }
  }

  lemma WorkNotNegative(c: Config, s: State)
    requires Inv(c, s)
    ensures SchedulerProperties.WorkLeft(c, s) >= 0
  {
    SchedulerProperties.Sizes(c, s);
  }

  lemma StepSpans(c: Config, s: State, a: Action)
    requires Inv(c, s) && Enabled(c, s, a) && NonNegative(s.spans)
    requires a.Receive? || a.Drain? ==> a.span.durationMs >= 0
    ensures var t := Apply(c, s, a);
            && NonNegative(t.spans) && s.spans.Keys <= t.spans.Keys
            && (a.Receive? || a.Drain? ==> a.span.id !in s.spans && a.span.id in t.spans)
  {
    hide Released, NewlyReady, DependsOn, Contribution;
    hide ResultsMatch, CountsExact, StartedIffZero, SkipClosed, SkippedBlocked, SnapshotsOk, Ending;
  }

  /** A span taken from the channel is one the goroutine may send for what it saw. */
  ghost predicate FromOutcome(outcome: Outcome, s: State, a: Action) {
    (a.Receive? || a.Drain?) && a.span.id in s.inFlight ==>
      exists n :: a.span == outcome(n, a.span.id, s.inFlight[a.span.id])
  }

  /** The actions lead from the initial state to s, with spans of the given outcome. */
  ghost predicate ReachesBy(c: Config, outcome: Outcome, acts: seq<Action>, s: State) {
    exists tr :: Scheduling.Run(c, tr, acts) && tr[|acts|] == s && AllFromOutcome(outcome, tr, acts)
  }

  ghost predicate AllFromOutcome(outcome: Outcome, tr: seq<State>, acts: seq<Action>) {
    forall i :: 0 <= i < |acts| && i < |tr| ==> FromOutcome(outcome, tr[i], acts[i])
  }

  lemma ReachesByInit(c: Config, outcome: Outcome)
    ensures ReachesBy(c, outcome, [], Init(c))
  {
    assert Scheduling.Run(c, [Init(c)], []);
  }

  lemma ReachesByStep(c: Config, outcome: Outcome, acts: seq<Action>, s: State, a: Action)
    requires ReachesBy(c, outcome, acts, s) && Enabled(c, s, a) && FromOutcome(outcome, s, a)
    ensures ReachesBy(c, outcome, acts + [a], Apply(c, s, a))
  {
    var tr :| Scheduling.Run(c, tr, acts) && tr[|acts|] == s && AllFromOutcome(outcome, tr, acts);
    RunExtend(c, tr, acts, a);
    var tr' := tr + [Apply(c, s, a)];
    hide Enabled, Apply, FromOutcome, StepAt, Init;
    assert tr'[|acts + [a]|] == Apply(c, s, a);
    assert AllFromOutcome(outcome, tr', acts + [a]);
  }

  /** The state of the loop, together with the actions that led to it. */
  ghost predicate Follows(loop: Loop, outcome: Outcome, acts: seq<Action>, receives: nat)
    reads loop
  {
    && loop.Valid() && ReachesBy(loop.C(), outcome, acts, loop.Abs())
    && NonNegative(loop.spans) && receives <= |loop.spans.Keys|
  }

  method DispatchAll(loop: Loop, ghost outcome: Outcome, ghost before: seq<Action>, ghost receives: nat)
    returns (ghost acts: seq<Action>)
    requires Follows(loop, outcome, before, receives) && loop.phase.Running?
    modifies loop
    ensures Follows(loop, outcome, acts, receives) && loop.phase.Running? && loop.ready == []
    ensures SchedulerProperties.WorkLeft(loop.C(), loop.Abs()) <= old(SchedulerProperties.WorkLeft(loop.C(), loop.Abs()))
    ensures old(loop.ready) == [] ==> loop.inFlight == old(loop.inFlight)
    ensures old(loop.ready) != [] ==> loop.inFlight != map[]
  {
    acts := before;
    ConfigSound(loop.wf);
    ghost var start := loop.ready;
    while loop.ready != []
      invariant Follows(loop, outcome, acts, receives) && loop.phase.Running?
      invariant SchedulerProperties.WorkLeft(loop.C(), loop.Abs()) <= old(SchedulerProperties.WorkLeft(loop.C(), loop.Abs()))
      invariant start == [] ==> loop.ready == [] && loop.inFlight == old(loop.inFlight)
      invariant loop.ready == start || loop.inFlight != map[]
      decreases |loop.ready|
    {
      hide Inv, ReachesBy, SchedulerProperties.WorkLeft, ChildrenExact, WellFormed, ConfigOf;
      ghost var s, id := loop.Abs(), loop.ready[0];
      loop.DispatchNext();
      StepEffects(loop.C(), s, Dispatch(id));
      ReachesByStep(loop.C(), outcome, acts, s, Dispatch(id));
      acts := acts + [Dispatch(id)];
      assert id in loop.inFlight;
    }
  }

  /** Waits for whichever task in flight sends its span next, and acts on it. */
  method TakeOne(loop: Loop, outcome: Outcome, ghost before: seq<Action>, received: nat)
    returns (ghost acts: seq<Action>, receives: nat)
    requires Follows(loop, outcome, before, received) && loop.phase.Running? && loop.inFlight != map[]
    requires Plausible(outcome)
    modifies loop
    ensures Follows(loop, outcome, acts, receives) && loop.phase == if loop.runFailed then Draining else Running
    ensures SchedulerProperties.WorkLeft(loop.C(), loop.Abs()) < old(SchedulerProperties.WorkLeft(loop.C(), loop.Abs()))
  {
    var tid :| tid in loop.inFlight;
    var span;
    acts, receives, span := TakeFrom(loop, outcome, tid, before, received);
  }

  /** Acts on the span of a given task in flight. */
  method TakeFrom(loop: Loop, outcome: Outcome, tid: Id, ghost before: seq<Action>, received: nat)
    returns (ghost acts: seq<Action>, receives: nat, span: Span)
    requires Follows(loop, outcome, before, received) && loop.phase.Running? && tid in loop.inFlight && Plausible(outcome)
    modifies loop
    ensures Follows(loop, outcome, acts, receives) && loop.phase == if loop.runFailed then Draining else Running
    ensures SchedulerProperties.WorkLeft(loop.C(), loop.Abs()) < old(SchedulerProperties.WorkLeft(loop.C(), loop.Abs()))
    ensures loop.inFlight.Keys == old(loop.inFlight.Keys) - {tid} && old(loop.spans.Keys) <= loop.spans.Keys
    ensures span.id == tid && loop.errors == old(loop.errors) + if span.status.Succeeded? then [] else [span.error]
    ensures loop.runFailed ==> tid in loop.C().failFast || old(loop.runFailed)
  {
    hide Inv, ReachesBy, SchedulerProperties.WorkLeft, ChildrenExact, WellFormed, ConfigOf, Apply;
    ConfigSound(loop.wf);
    ghost var s := loop.Abs();
    span := outcome(received, tid, loop.inFlight[tid]);
    loop.Receive(span);
    receives := received + 1;
    assert FromOutcome(outcome, s, Action.Receive(span));
    StepEffects(loop.C(), s, Action.Receive(span));
    ReachesByStep(loop.C(), outcome, before, s, Action.Receive(span));
    acts := before + [Action.Receive(span)];
    PhaseAfterReceive(loop.C(), s, span);
  }

  method DrainNext(loop: Loop, outcome: Outcome, ghost before: seq<Action>, received: nat)
    returns (ghost acts: seq<Action>, receives: nat)
    requires Follows(loop, outcome, before, received) && loop.phase.Draining? && loop.inFlight != map[]
    requires Plausible(outcome)
    modifies loop
    ensures Follows(loop, outcome, acts, receives) && loop.phase.Draining?
    ensures |loop.inFlight| < old(|loop.inFlight|)
  {
    hide Inv, ReachesBy, SchedulerProperties.WorkLeft, ChildrenExact, WellFormed, ConfigOf;
    ConfigSound(loop.wf);
    ghost var s := loop.Abs();
    var tid :| tid in loop.inFlight;
    var span := outcome(received, tid, loop.inFlight[tid]);
    loop.DrainOne(span);
    receives := received + 1;
    assert FromOutcome(outcome, s, Drain(span));
    StepEffects(loop.C(), s, Drain(span));
    ReachesByStep(loop.C(), outcome, before, s, Drain(span));
    acts := before + [Drain(span)];
  }

  /** After a fatal failure: takes the spans still in flight, then skips what never started. */
  method DrainAll(loop: Loop, outcome: Outcome, ghost before: seq<Action>, received: nat)
    returns (ghost acts: seq<Action>, receives: nat)
    requires Follows(loop, outcome, before, received) && loop.phase.Draining? && Plausible(outcome)
    modifies loop
    ensures Follows(loop, outcome, acts, receives) && loop.phase.Finished?
  {
    acts, receives := before, received;
    while loop.inFlight != map[]
      invariant Follows(loop, outcome, acts, receives) && loop.phase.Draining?
      decreases |loop.inFlight|
    {
      acts, receives := DrainNext(loop, outcome, acts, receives);
    }
    hide Inv, ReachesBy, SchedulerProperties.WorkLeft, ChildrenExact, WellFormed, ConfigOf;
    ConfigSound(loop.wf);
    ghost var s := loop.Abs();
    loop.FinishDrain();
    StepEffects(loop.C(), s, EndDrain);
    ReachesByStep(loop.C(), outcome, acts, s, EndDrain);
    acts := acts + [EndDrain];
  }

  /** The main loop.  It ends after at most one receive per task, drain included, in a finished
      state of the transition system. */
  method RunLoop(loop: Loop, outcome: Outcome) returns (ghost acts: seq<Action>, receives: nat)
    requires loop.Valid() && loop.Abs() == Init(loop.C()) && Plausible(outcome)
    modifies loop
    ensures Follows(loop, outcome, acts, receives) && loop.phase.Finished?
    ensures receives <= |loop.C().g.Keys|
  {
    hide Inv, ReachesBy, SchedulerProperties.WorkLeft, ChildrenExact, WellFormed, ConfigOf;
    acts, receives := [], 0;
    ReachesByInit(loop.C(), outcome);
    while loop.ready != [] || loop.inFlight != map[]
      invariant Follows(loop, outcome, acts, receives) && loop.phase.Running?
      decreases SchedulerProperties.WorkLeft(loop.C(), loop.Abs())
    {
      WorkNotNegative(loop.C(), loop.Abs());
      acts := DispatchAll(loop, outcome, acts, receives);
      acts, receives := TakeOne(loop, outcome, acts, receives);
      if loop.runFailed {
        acts, receives := DrainAll(loop, outcome, acts, receives);
        ReceivesBounded(loop.C(), loop.Abs(), receives);
        return;
      }
    }
    ConfigSound(loop.wf);
    ghost var s := loop.Abs();
    loop.Leave();
    StepEffects(loop.C(), s, Complete);
    ReachesByStep(loop.C(), outcome, acts, s, Complete);
    acts := acts + [Complete];
    ReceivesBounded(loop.C(), loop.Abs(), receives);
  }

  lemma PhaseAfterReceive(c: Config, s: State, span: Span)
    requires Inv(c, s) && Enabled(c, s, Action.Receive(span))
    ensures var t := Apply(c, s, Action.Receive(span));
            && t.phase == (if t.runFailed then Draining else Running)
            && (t.runFailed ==> span.id in c.failFast || s.runFailed)
            && t.inFlight.Keys == s.inFlight.Keys - {span.id} && s.spans.Keys <= t.spans.Keys
            && t.errors == s.errors + if span.status.Succeeded? then [] else [span.error]
  {
    hide Released, NewlyReady, DependsOn, Contribution;
    hide Partition, ResultsMatch, CountsExact, StartedIffZero, SkipClosed, SkippedBlocked, SnapshotsOk;
  }

  lemma ReceivesBounded(c: Config, s: State, receives: nat)
    requires Inv(c, s) && receives <= |s.spans.Keys|
    ensures receives <= |c.g.Keys|
  {
    SchedulerProperties.SubsetSize(s.spans.Keys, c.g.Keys);
  }

  // ---------- the report ----------

  method OverallStatus(runFailed: bool, spans: map<Id, Span>) returns (status: Status)
    ensures status == if runFailed || exists id :: id in spans && spans[id].status.Failed? then Failed else Succeeded
  {
    if runFailed {
      return Failed;
    }
    var todo := spans.Keys;
    while todo != {}
      invariant todo <= spans.Keys && forall id :: id in spans.Keys - todo ==> !spans[id].status.Failed?
      decreases todo
    {
      var id :| id in todo;
      if spans[id].status.Failed? {
        return Failed;
      }
      todo := todo - {id};
    }
    status := Succeeded;
  }

  method OrderedSpans(wf: Workflow, spans: map<Id, Span>) returns (ordered: seq<Span>)
    requires forall i :: 0 <= i < |wf.tasks| ==> wf.tasks[i].id in spans
    ensures |ordered| == |wf.tasks| && forall i :: 0 <= i < |wf.tasks| ==> ordered[i] == spans[wf.tasks[i].id]
  {
    ordered := [];
    for i := 0 to |wf.tasks|
      invariant |ordered| == i && forall k :: 0 <= k < i ==> ordered[k] == spans[wf.tasks[k].id]
    {
      if wf.tasks[i].id in spans {
        ordered := ordered + [spans[wf.tasks[i].id]];
      }
    }
  }

  /** An order in which a map happens to be visited. */
  method VisitOrder(ids: set<Id>) returns (order: seq<Id>)
    ensures forall n :: n in order <==> n in ids
  {
    order := [];
    var todo := ids;
    while todo != {}
      invariant todo <= ids && forall n :: n in order <==> n in ids - todo
      decreases todo
    {
      var n :| n in todo;
      order := order + [n];
      todo := todo - {n};
    }
  }

  /** The workflow's output template, resolved against the published results. */
  function FinalOutput(wf: Workflow, inputs: map<string, Value>, results: map<Id, Value>, status: Status, json: Printer): Value {
    if status.Succeeded? && wf.output != "" then
      match Templates.Resolve(Str(wf.output), TaskExecution.ScopeOf(inputs, results), json)
      case Some(v) => v
      case None => Null
    else Null
  }

  /** A longest chain of succeeded tasks, from a task without dependencies to one that no succeeded
      task depends on; nothing only when nothing succeeded. */
  ghost predicate Bottleneck(wf: Workflow, spans: map<Id, Span>, path: seq<Id>) {
    var g := DependencyGraph(wf.tasks);
    && (path == [] <==> forall n :: !CriticalPath.HasSucceeded(spans, n))
    && (path != [] ==>
          && CriticalPath.NoneTakesLonger(spans, g, path) && CriticalPath.EndsThere(spans, g, path[|path| - 1])
          && path[0] in g && g[path[0]] == [])
  }

  method BottleneckChain(wf: Workflow, spans: map<Id, Span>, ghost final: State) returns (path: seq<Id>)
    requires WellFormed(wf) && !HasId(wf.tasks, "") && Inv(ConfigOf(wf), final) && final.phase.Finished?
    requires spans == final.spans && NonNegative(spans)
    ensures Bottleneck(wf, spans, path)
  {
    FinalFacts(wf, final);
    hide Inv, Closed, Acyclic, ConfigOf, CriticalPath.StartsAfresh, CriticalPath.EndsThere, CriticalPathGo.Returns;
    var order := VisitOrder(spans.Keys);
    ghost var fallback;
    path, fallback := CriticalPathGo.FindCriticalPath(CriticalPath.Trace(spans, DependencyGraph(wf.tasks)), order);
    if path != [] {
      SourceHasNoDependencies(wf, final, path[0]);
    }
  }

  /** What the report shows as the workflow's output: nothing unless the run succeeded and has an
      output template; the output of a succeeded task that the template is a reference to. */
  ghost predicate ReportsOutput(wf: Workflow, final: State, status: Status, output: Value) {
    && (status != Succeeded || wf.output == "" ==> output == Null)
    && (status == Succeeded ==> forall x :: x in final.spans && ReferredTo(wf, final, x) ==> output == final.spans[x].output)
  }

  /** The output template is one reference to the output of this task, which succeeded. */
  ghost predicate ReferredTo(wf: Workflow, final: State, x: Id) {
    && x in final.spans && final.spans[x].status.Succeeded?
    && '.' !in x && TemplateMeaning.RefersTo(wf.output, x + ".output")
  }

  lemma OutputReported(wf: Workflow, inputs: map<string, Value>, final: State, json: Printer)
    requires Inv(ConfigOf(wf), final)
    ensures var status := SchedulerProperties.Status(final);
            ReportsOutput(wf, final, status, FinalOutput(wf, inputs, final.results, status, json))
  {
    hide TemplateMeaning.RefersTo, Templates.Resolve, TaskExecution.ScopeOf;
    hide Partition, CountsExact, StartedIffZero, SkipClosed, SkippedBlocked, SnapshotsOk, Ending, ConfigOf;
    forall x | ReferredTo(wf, final, x) && !final.runFailed
      ensures x in final.results && final.results[x] == final.spans[x].output
      ensures Templates.Resolve(Str(wf.output), TaskExecution.ScopeOf(inputs, final.results), json) == Some(final.results[x])
    {
      TaskExecution.OutputReference(wf.output, x, inputs, final.results, json);
    }
    if wf.output == "" { TemplateMeaning.NothingRefers(); }
  }

  lemma FailedIffAborted(wf: Workflow, outcome: Outcome, acts: seq<Action>, final: State)
    requires UniqueIds(wf.tasks) && ReachesBy(ConfigOf(wf), outcome, acts, final)
    ensures final.runFailed <==> exists i :: 0 <= i < |acts| && Aborts(wf, acts[i])
  {
    hide UniqueIds, Fatal, FatalIds, Enabled, Apply, Init, AllFromOutcome;
    var tr :| Scheduling.Run(ConfigOf(wf), tr, acts) && tr[|acts|] == final;
    SchedulerProperties.FailedExactly(ConfigOf(wf), tr, acts, |acts|);
    forall i | 0 <= i < |acts| ensures SchedulerProperties.TakesFatal(ConfigOf(wf), acts[i]) <==> Aborts(wf, acts[i]) {
      if acts[i].Receive? { FatalIdsExact(wf, acts[i].span.id); }
    }
  }

  /** Run: for any validated workflow, whatever order the tasks complete in and whatever spans
      they return, the run ends after at most one receive per task, in a finished state of the
      transition system; the report has one span per task in specification order and shows that
      state's status, totals and errors, and a longest chain of its succeeded tasks. */
  method Run(wf: Workflow, inputs: map<string, Value>, outcome: Outcome, json: Printer)
    returns (report: Report, receives: nat, ghost acts: seq<Action>, ghost final: State)
    requires WellFormed(wf) && !HasId(wf.tasks, "") && Plausible(outcome)
    ensures ReachesBy(ConfigOf(wf), outcome, acts, final) && final.phase.Finished?
    ensures receives <= |wf.tasks|
    ensures |report.tasks| == |wf.tasks|
    ensures forall i :: 0 <= i < |wf.tasks| ==>
              wf.tasks[i].id in final.spans && report.tasks[i] == final.spans[wf.tasks[i].id] && report.tasks[i].id == wf.tasks[i].id
    ensures report.status == SchedulerProperties.Status(final)
    ensures report.totals == final.totals && report.errors == final.errors
    ensures final.runFailed <==> exists i :: 0 <= i < |acts| && Aborts(wf, acts[i])
    ensures report.output == FinalOutput(wf, inputs, final.results, report.status, json)
    ensures ReportsOutput(wf, final, report.status, report.output)
    ensures Bottleneck(wf, final.spans, report.criticalPath)
  {
    hide ReportsOutput, Aborts;
    hide Inv, ReachesBy, ChildrenExact, Closed, Acyclic, NoRepeats, Bottleneck;
    var indeg, children := BuildBookkeeping(wf);
    var ready := InitialReady(wf, indeg);
    var loop := new Loop(wf, indeg, children, ready);
    acts, receives := RunLoop(loop, outcome);
    final := loop.Abs();
    FinalFacts(loop.wf, final);
    FailedIffAborted(wf, outcome, acts, final);
    OutputReported(wf, inputs, final, json);
    var status := OverallStatus(loop.runFailed, loop.spans);
    var scope := TaskExecution.BuildScope(inputs, loop.results);
    var output := Null;
    if status.Succeeded? && wf.output != "" {
      var v := Templates.Resolve(Str(wf.output), scope, json);
      if v.Some? {
        output := v.value;
      }
    }
    var ordered := OrderedSpans(wf, loop.spans);
    var path := BottleneckChain(wf, loop.spans, final);
    report := Report(status, ordered, path, loop.totals, loop.errors, output);
  }

  lemma FinalFacts(wf: Workflow, s: State)
    requires WellFormed(wf) && Inv(ConfigOf(wf), s) && s.phase.Finished?
    ensures |DependencyGraph(wf.tasks).Keys| == |wf.tasks|
    ensures forall i :: 0 <= i < |wf.tasks| ==> wf.tasks[i].id in s.spans && s.spans[wf.tasks[i].id].id == wf.tasks[i].id
    ensures !HasId(wf.tasks, "") ==> "" !in DependencyGraph(wf.tasks)
    ensures s.spans.Keys == DependencyGraph(wf.tasks).Keys && Closed(DependencyGraph(wf.tasks))
  {
    GraphFacts(wf);
    FinishedSpans(ConfigOf(wf), s);
    hide *;
  }

  lemma FinishedSpans(c: Config, s: State)
    requires Inv(c, s) && s.phase.Finished?
    ensures s.spans.Keys == c.g.Keys && forall id :: id in s.spans ==> s.spans[id].id == id
  {
  }

  lemma GraphFacts(wf: Workflow)
    requires WellFormed(wf)
    ensures ConfigOf(wf).g == DependencyGraph(wf.tasks) && Closed(DependencyGraph(wf.tasks))
    ensures |DependencyGraph(wf.tasks).Keys| == |wf.tasks|
    ensures forall i :: 0 <= i < |wf.tasks| ==> wf.tasks[i].id in DependencyGraph(wf.tasks)
    ensures !HasId(wf.tasks, "") ==> "" !in DependencyGraph(wf.tasks)
  {
    ConfigSound(wf);
    TaskMapKeys(wf.tasks);
    TaskMapSize(wf.tasks);
    assert DependencyGraph(wf.tasks).Keys == TaskMap(wf.tasks).Keys;
    forall i | 0 <= i < |wf.tasks| ensures wf.tasks[i].id in TaskMap(wf.tasks) {
      TaskMapFinds(wf.tasks, i);
    }
  }

  /** Succeeded tasks are dependency-closed, so a path that starts at a task with no succeeded
      dependency starts at a task with no dependency. */
  lemma SourceHasNoDependencies(wf: Workflow, s: State, id: Id)
    requires WellFormed(wf) && Inv(ConfigOf(wf), s) && CriticalPath.HasSucceeded(s.spans, id)
    requires CriticalPath.StartsAfresh(s.spans, DependencyGraph(wf.tasks), id)
    ensures DependencyGraph(wf.tasks)[id] == []
  {
    ConfigSound(wf);
    var g := DependencyGraph(wf.tasks);
    if g[id] != [] {
      var d := g[id][0];
      assert Edge(g, id, d);
      SchedulerProperties.SucceededClosed(ConfigOf(wf), s, id, d);
    }
  }
}
