/** The Python engine's loop on `continue` runs.  It takes spans in batches, without dispatching
    in between, and carries a set of skipped tasks that it checks before every dispatch and
    before queueing a released task.  It is a run of the same transition system, and none of the
    checks ever makes a difference. */
module PythonScheduler {
  import opened Values
  import opened Graphs
  import opened Workflows
  import opened Spans
  import opened Scheduling
  import opened SchedulerInvariant
  import opened MainLoop
  import opened SchedulerRun
  import SchedulerProperties

  /** The spans that were given to tasks as marks, as the engine's own set records them. */
  ghost predicate Tracked(loop: Loop, skipped: set<Id>)
    reads loop
  {
    skipped <= loop.spans.Keys
  }

  /** A task whose counter reaches zero was never skipped, so checking for that before queueing
      it changes nothing. */
  lemma QueueGuardRedundant(c: Config, s: State, span: Span, k: Id)
    requires Sound(c) && Inv(c, s) && s.phase.Running? && span.id in s.inFlight
    requires k in NewlyReady(c.g, s.indeg, span.id)
    ensures k !in s.spans
  {
    SuccessCounts(c, s, span, k);
    CountPositive(c.g[k], span.id);
  }

  /** The Python engine keeps the error of the first failure only. */
  function FirstOf(errors: seq<string>): Option<string> {
    if errors == [] then None else Some(errors[0])
  }

  /** ... and reports it unless it is empty. */
  function Reported(first: Option<string>): seq<string> {
    if first.Some? && first.value != "" then [first.value] else []
  }

  /** Starts everything that is queued.  The guard lets every task through. */
  method StartAll(loop: Loop, ghost outcome: Outcome, skipped: set<Id>, ghost before: seq<Action>, ghost receives: nat)
    returns (ghost acts: seq<Action>)
    requires Follows(loop, outcome, before, receives) && loop.phase.Running? && Tracked(loop, skipped)
    modifies loop
    ensures Follows(loop, outcome, acts, receives) && loop.phase.Running? && loop.ready == [] && Tracked(loop, skipped)
    ensures SchedulerProperties.WorkLeft(loop.C(), loop.Abs()) <= old(SchedulerProperties.WorkLeft(loop.C(), loop.Abs()))
    ensures old(loop.ready) != [] || old(loop.inFlight) != map[] ==> loop.inFlight != map[]
    ensures loop.errors == old(loop.errors)
  {
    acts := before;
    ghost var start := loop.ready;
    while loop.ready != []
      invariant Follows(loop, outcome, acts, receives) && loop.phase.Running? && Tracked(loop, skipped)
      invariant SchedulerProperties.WorkLeft(loop.C(), loop.Abs()) <= old(SchedulerProperties.WorkLeft(loop.C(), loop.Abs()))
      invariant loop.errors == old(loop.errors)
      invariant loop.inFlight != map[] || (loop.ready == start && loop.inFlight == old(loop.inFlight))
      decreases |loop.ready|
    {
      hide Inv, ReachesBy, SchedulerProperties.WorkLeft, ChildrenExact, WellFormed, ConfigOf;
      ConfigSound(loop.wf);
      var tid := loop.ready[0];
      QueuedHasNoSpan(loop, tid);
      if tid !in skipped {
        ghost var s := loop.Abs();
        loop.DispatchNext();
        StepEffects(loop.C(), s, Dispatch(tid));
        ReachesByStep(loop.C(), outcome, acts, s, Dispatch(tid));
        acts := acts + [Dispatch(tid)];
        assert tid in loop.inFlight;
      }
    }
  }

  lemma QueuedHasNoSpan(loop: Loop, tid: Id)
    requires loop.Valid() && tid in loop.ready
    ensures tid !in loop.spans
  {
    assert tid in Elements(loop.ready);
  }

  /** Handles one batch of finished tasks, in any order, without starting anything in between. */
  method TakeBatch(loop: Loop, outcome: Outcome, batch: set<Id>, marked: set<Id>, first: Option<string>,
                   ghost before: seq<Action>, received: nat)
    returns (ghost acts: seq<Action>, receives: nat, skipped: set<Id>, firstError: Option<string>)
    requires Follows(loop, outcome, before, received) && loop.phase.Running? && Tracked(loop, marked) && Plausible(outcome)
    requires batch <= loop.inFlight.Keys && loop.C().failFast == {} && !loop.runFailed && first == FirstOf(loop.errors)
    modifies loop
    ensures Follows(loop, outcome, acts, receives) && loop.phase.Running? && Tracked(loop, skipped) && !loop.runFailed
    ensures loop.inFlight.Keys == old(loop.inFlight.Keys) - batch && firstError == FirstOf(loop.errors)
    ensures SchedulerProperties.WorkLeft(loop.C(), loop.Abs()) <= old(SchedulerProperties.WorkLeft(loop.C(), loop.Abs()))
    ensures batch != {} ==>
              SchedulerProperties.WorkLeft(loop.C(), loop.Abs()) < old(SchedulerProperties.WorkLeft(loop.C(), loop.Abs()))
  {
    hide Inv, ReachesBy, SchedulerProperties.WorkLeft, ChildrenExact, WellFormed, ConfigOf, Follows;
    acts, receives, skipped, firstError := before, received, marked, first;
    var todo := batch;
    while todo != {}
      invariant todo <= batch && todo <= loop.inFlight.Keys && loop.inFlight.Keys == old(loop.inFlight.Keys) - (batch - todo)
      invariant Follows(loop, outcome, acts, receives) && loop.phase.Running? && Tracked(loop, skipped) && !loop.runFailed
      invariant firstError == FirstOf(loop.errors)
      invariant SchedulerProperties.WorkLeft(loop.C(), loop.Abs()) <= old(SchedulerProperties.WorkLeft(loop.C(), loop.Abs()))
      invariant todo != batch ==>
                  SchedulerProperties.WorkLeft(loop.C(), loop.Abs()) < old(SchedulerProperties.WorkLeft(loop.C(), loop.Abs()))
      decreases todo
    {
      var tid :| tid in todo;
      var before := loop.spans.Keys;
      var span;
      acts, receives, span := TakeFrom(loop, outcome, tid, acts, receives);
      if !span.status.Succeeded? && firstError.None? {
        firstError := Some(span.error);
      }
      skipped := skipped + (loop.spans.Keys - before - {tid});
      todo := todo - {tid};
    }
  }

  /** The Python loop.  `choice` says which tasks in flight form the next batch; at least one
      does.  Like the Go loop it is a run of the transition system that ends in a finished state
      after at most one span per task, and it never stops early for want of running tasks. */
  method RunLoop(loop: Loop, outcome: Outcome, choice: (nat, set<Id>) -> set<Id>)
    returns (ghost acts: seq<Action>, receives: nat, errors: seq<string>)
    requires loop.Valid() && loop.Abs() == Init(loop.C()) && Plausible(outcome) && loop.C().failFast == {}
    modifies loop
    ensures Follows(loop, outcome, acts, receives) && loop.phase.Finished? && !loop.runFailed
    ensures receives <= |loop.C().g.Keys|
    ensures errors == if loop.errors == [] || loop.errors[0] == "" then [] else [loop.errors[0]]
  {
    hide Inv, ReachesBy, SchedulerProperties.WorkLeft, ChildrenExact, WellFormed, ConfigOf;
    acts, receives := [], 0;
    var skipped: set<Id>, firstError: Option<string> := {}, None;
    ReachesByInit(loop.C(), outcome);
    while loop.ready != [] || loop.inFlight != map[]
      invariant Follows(loop, outcome, acts, receives) && loop.phase.Running? && Tracked(loop, skipped) && !loop.runFailed
      invariant firstError == FirstOf(loop.errors)
      decreases SchedulerProperties.WorkLeft(loop.C(), loop.Abs())
    {
      WorkNotNegative(loop.C(), loop.Abs());
      acts := StartAll(loop, outcome, skipped, acts, receives);
      RunningNotFailed(loop);
      var first :| first in loop.inFlight;
      var batch := choice(receives, loop.inFlight.Keys) * loop.inFlight.Keys + {first};
      acts, receives, skipped, firstError := TakeBatch(loop, outcome, batch, skipped, firstError, acts, receives);
    }
    ConfigSound(loop.wf);
    ghost var s := loop.Abs();
    loop.Leave();
    StepEffects(loop.C(), s, Complete);
    ReachesByStep(loop.C(), outcome, acts, s, Complete);
    acts := acts + [Complete];
    ReceivesBounded(loop.C(), loop.Abs(), receives);
    errors := Reported(firstError);
  }

  lemma RunningNotFailed(loop: Loop)
    requires loop.Valid() && loop.phase.Running?
    ensures !loop.runFailed
  {
  }
}
