/** The inductive invariant of the scheduler: what every reachable state keeps. */
module SchedulerInvariant {
  import opened Values
  import opened Graphs
  import opened Spans
  import opened Scheduling

  ghost predicate Sound(c: Config) {
    Closed(c.g) && Acyclic(c.g)
  }

  /** Each task is waiting, ready, in flight or has a span, and only one of the last three. */
  ghost predicate Partition(c: Config, s: State) {
    && s.indeg.Keys == c.g.Keys
    && s.ready <= c.g.Keys && s.inFlight.Keys <= c.g.Keys && s.spans.Keys <= c.g.Keys
    && s.ready !! s.inFlight.Keys && s.ready !! s.spans.Keys && s.inFlight.Keys !! s.spans.Keys
    && (forall id :: id in s.spans ==> s.spans[id].id == id)
  }

  /** The published results are the outputs of the succeeded tasks; only a drain forgets some. */
  ghost predicate ResultsMatch(c: Config, s: State) {
    && (forall id :: id in s.results ==>
          id in s.spans && s.spans[id].status.Succeeded? && s.spans[id].output == s.results[id])
    && (!s.runFailed ==> forall id :: id in s.spans && s.spans[id].status.Succeeded? ==> id in s.results)
  }

  /** The counter of a task is the number of its dependency entries, with multiplicity, whose
      results are missing. */
  ghost predicate CountsExact(c: Config, s: State) {
    forall id :: id in c.g && id in s.indeg ==> s.indeg[id] == Missing(c.g[id], s.results.Keys)
  }

  /** A task has left the waiting state without being skipped exactly when its counter is zero. */
  ghost predicate StartedIffZero(c: Config, s: State) {
    && (forall id :: id in s.ready + s.inFlight.Keys && id in s.indeg ==> s.indeg[id] == 0)
    && (forall id :: id in s.spans && !s.spans[id].status.Skipped? && id in s.indeg ==> s.indeg[id] == 0)
    && (forall id :: id in s.indeg && s.indeg[id] == 0 ==> id in s.ready || id in s.inFlight || id in s.spans)
  }

  /** Until a fatal failure, everything above an unsuccessful task already has a span. */
  ghost predicate SkipClosed(c: Config, s: State) {
    !s.runFailed ==>
      forall id, d :: Edge(c.g, id, d) && d in s.spans && !s.spans[d].status.Succeeded? ==> id in s.spans
  }

  ghost predicate Blocked(c: Config, s: State, id: Id) {
    exists d :: Edge(c.g, id, d) && d in s.spans && !s.spans[d].status.Succeeded?
  }

  /** Until a fatal failure, a task skipped before it started has an unsuccessful dependency. */
  ghost predicate SkippedBlocked(c: Config, s: State) {
    !s.runFailed ==>
      forall id :: id in s.spans && id in s.indeg && s.indeg[id] != 0 ==> Blocked(c, s, id)
  }

  /** A dispatched task sees published results, among them those of all its dependencies, and
      what it sees is closed under dependencies. */
  ghost predicate SnapshotOk(c: Config, s: State, id: Id, snap: map<Id, Value>) {
    && (forall k :: k in snap ==> k in s.results && snap[k] == s.results[k])
    && (forall d :: Edge(c.g, id, d) ==> d in snap)
    && (forall k, d :: k in snap && Edge(c.g, k, d) ==> d in snap)
  }

  ghost predicate SnapshotsOk(c: Config, s: State) {
    forall id :: id in s.inFlight ==> SnapshotOk(c, s, id, s.inFlight[id])
  }

  ghost predicate Ending(c: Config, s: State) {
    && (s.phase.Draining? ==> s.runFailed)
    && (s.runFailed ==> !s.phase.Running? && exists id :: id in s.spans && !s.spans[id].status.Succeeded?)
    && (s.phase.Finished? ==> s.spans.Keys == c.g.Keys && s.ready == {} && s.inFlight == map[])
  }

  ghost predicate Inv(c: Config, s: State) {
    && Partition(c, s) && ResultsMatch(c, s) && CountsExact(c, s) && StartedIffZero(c, s)
    && SkipClosed(c, s) && SkippedBlocked(c, s) && SnapshotsOk(c, s) && Ending(c, s)
  }

  // ---------- consequences ----------

  lemma ZeroMeansDepsDone(c: Config, s: State, id: Id)
    requires Partition(c, s) && CountsExact(c, s) && id in c.g
    ensures s.indeg[id] == 0 <==> forall d :: d in c.g[id] ==> d in s.results
  {
    MissingZero(c.g[id], s.results.Keys);
  }

  /** Published results are closed under dependencies. */
  lemma ResultsClosed(c: Config, s: State)
    requires Partition(c, s) && ResultsMatch(c, s) && CountsExact(c, s) && StartedIffZero(c, s)
    ensures forall k, d :: k in s.results && Edge(c.g, k, d) ==> d in s.results
  {
    forall k, d | k in s.results && Edge(c.g, k, d) ensures d in s.results {
      ZeroMeansDepsDone(c, s, k);
    }
  }

  /** Above an unpublished task every counter is positive, so nothing there has started. */
  lemma DescendantsBlocked(c: Config, s: State, from: Id, id: Id)
    requires Closed(c.g) && Partition(c, s) && ResultsMatch(c, s) && CountsExact(c, s) && StartedIffZero(c, s)
    requires from !in s.results && DependsOn(c.g, id, from)
    ensures id in s.indeg && s.indeg[id] != 0
  {
    var p :| WalkFromTo(c.g, p, id, from) && |p| >= 2;
    assert LinkAt(c.g, p, 1);
    ZeroMeansDepsDone(c, s, id);
    if s.indeg[id] == 0 {
      ResultsClosed(c, s);
      SliceWalk(c.g, p, 1, |p|);
      ClosedUnderDepends(c.g, s.results.Keys, p[1], from, p[1..|p|]);
    }
  }

  /** Taking tasks out of flight leaves the snapshots of the others as they were. */
  lemma SnapshotsKept(c: Config, s: State, t: State)
    requires SnapshotsOk(c, s) && t.results == s.results
    requires forall k :: k in t.inFlight ==> k in s.inFlight && t.inFlight[k] == s.inFlight[k]
    ensures SnapshotsOk(c, t)
  {
    forall k | k in t.inFlight ensures SnapshotOk(c, t, k, t.inFlight[k]) {
      assert SnapshotOk(c, s, k, s.inFlight[k]);
    }
  }

  // ---------- the invariant is inductive ----------

  lemma InitInv(c: Config)
    requires Sound(c)
    ensures Inv(c, Init(c))
  {
    var s := Init(c);
    forall id | id in c.g ensures s.indeg[id] == Missing(c.g[id], {}) {
      MissingNothing(c.g[id]);
    }
    assert s.results.Keys == {};
  }

  lemma DispatchInv(c: Config, s: State, id: Id)
    requires Sound(c) && Inv(c, s) && Enabled(c, s, Dispatch(id))
    ensures Inv(c, Apply(c, s, Dispatch(id)))
  {
    ResultsClosed(c, s);
    ZeroMeansDepsDone(c, s, id);
    assert SnapshotOk(c, s, id, s.results);
    var t := Apply(c, s, Dispatch(id));
    forall k | k in t.inFlight ensures SnapshotOk(c, t, k, t.inFlight[k]) {
      if k != id { assert SnapshotOk(c, s, k, s.inFlight[k]); }
    }
  }

  /** Counters after a success, and who becomes ready: tasks that never left the waiting state. */
  lemma SuccessCounts(c: Config, s: State, span: Span, k: Id)
    requires Partition(c, s) && ResultsMatch(c, s) && CountsExact(c, s) && SkippedBlocked(c, s) && !s.runFailed
    requires span.id in s.inFlight && k in c.g
    ensures var t := AfterSuccess(c, s, span);
            && t.results.Keys == s.results.Keys + {span.id}
            && s.indeg[k] == t.indeg[k] + Count(c.g[k], span.id)
            && t.indeg[k] == Missing(c.g[k], t.results.Keys)
            && (Count(c.g[k], span.id) > 0 <==> span.id in c.g[k])
            && (t.indeg[k] == 0 && s.indeg[k] != 0 ==> k !in s.spans)
  {
    var t := AfterSuccess(c, s, span);
    assert t.results.Keys == s.results.Keys + {span.id};
    MissingAfter(c.g[k], s.results.Keys, span.id);
    CountPositive(c.g[k], span.id);
    MissingZero(c.g[k], t.results.Keys);
    if k in s.spans && s.indeg[k] != 0 {
      assert Blocked(c, s, k);
    }
  }

  lemma SuccessAllCounts(c: Config, s: State, span: Span)
    requires Partition(c, s) && ResultsMatch(c, s) && CountsExact(c, s) && SkippedBlocked(c, s) && !s.runFailed
    requires span.id in s.inFlight
    ensures CountsExact(c, AfterSuccess(c, s, span))
    ensures forall k :: k in c.g ==>
              var t := AfterSuccess(c, s, span);
              && s.indeg[k] == t.indeg[k] + Count(c.g[k], span.id)
              && t.indeg[k] == Missing(c.g[k], t.results.Keys)
              && (Count(c.g[k], span.id) > 0 <==> span.id in c.g[k])
              && (t.indeg[k] == 0 && s.indeg[k] != 0 ==> k !in s.spans)
  {
    forall k | k in c.g
      ensures var t := AfterSuccess(c, s, span);
              && s.indeg[k] == t.indeg[k] + Count(c.g[k], span.id)
              && t.indeg[k] == Missing(c.g[k], t.results.Keys)
              && (Count(c.g[k], span.id) > 0 <==> span.id in c.g[k])
              && (t.indeg[k] == 0 && s.indeg[k] != 0 ==> k !in s.spans)
    {
      SuccessCounts(c, s, span, k);
    }
  }

  lemma SuccessInv(c: Config, s: State, span: Span)
    requires Sound(c) && Inv(c, s) && s.phase.Running? && span.id in s.inFlight && span.status.Succeeded?
    ensures Inv(c, AfterSuccess(c, s, span))
  {
    NotFailedWhileRunning(c, s);
    SuccessAllCounts(c, s, span);
    SuccessNeverRises(c, s, span);
    hide Partition, StartedIffZero, SkippedBlocked, SnapshotsOk, ResultsMatch, CountsExact, SkipClosed, Ending;
    hide AfterSuccess, Missing, Count;
    SuccessSnapshots(c, s, span);
    SuccessPartition(c, s, span);
    SuccessBlocked(c, s, span);
    SuccessStarted(c, s, span);
    SuccessResults(c, s, span);
  }

  lemma NotFailedWhileRunning(c: Config, s: State)
    requires Ending(c, s) && s.phase.Running?
    ensures !s.runFailed
  {
  }

  lemma SuccessNeverRises(c: Config, s: State, span: Span)
    requires Partition(c, s) && forall k :: k in c.g ==>
               var t := AfterSuccess(c, s, span);
               s.indeg[k] == t.indeg[k] + Count(c.g[k], span.id) && t.indeg[k] == Missing(c.g[k], t.results.Keys)
    ensures forall k :: k in c.g && s.indeg[k] == 0 ==> AfterSuccess(c, s, span).indeg[k] == 0
  {
  }

  lemma SuccessResults(c: Config, s: State, span: Span)
    requires Partition(c, s) && ResultsMatch(c, s) && SkipClosed(c, s) && Ending(c, s) && s.phase.Running?
    requires span.id in s.inFlight && span.status.Succeeded?
    ensures var t := AfterSuccess(c, s, span); ResultsMatch(c, t) && SkipClosed(c, t) && Ending(c, t)
  {
  }

  lemma SuccessStarted(c: Config, s: State, span: Span)
    requires Partition(c, s) && StartedIffZero(c, s) && span.id in s.inFlight && CountsExact(c, s)
    requires var t := AfterSuccess(c, s, span);
             forall k :: k in c.g ==>
               && s.indeg[k] == t.indeg[k] + Count(c.g[k], span.id)
               && t.indeg[k] == Missing(c.g[k], t.results.Keys)
               && (Count(c.g[k], span.id) > 0 <==> span.id in c.g[k])
    ensures StartedIffZero(c, AfterSuccess(c, s, span))
  {
    hide Missing, Count, Contribution;
    var t := AfterSuccess(c, s, span);
    assert forall k :: k in s.indeg && s.indeg[k] == 0 ==> t.indeg[k] == 0;
    assert forall k :: k in NewlyReady(c.g, s.indeg, span.id) ==> t.indeg[k] == 0;
    forall k | k in t.indeg && t.indeg[k] == 0 && s.indeg[k] != 0
      ensures k in NewlyReady(c.g, s.indeg, span.id)
    {
      assert span.id in c.g[k];
    }
    hide Released, NewlyReady, CountsExact;
  }

  lemma SuccessPartition(c: Config, s: State, span: Span)
    requires Partition(c, s) && StartedIffZero(c, s) && span.id in s.inFlight
    requires var t := AfterSuccess(c, s, span);
             forall k :: k in c.g ==> (t.indeg[k] == 0 && s.indeg[k] != 0 ==> k !in s.spans)
    requires forall k :: k in c.g ==> (Count(c.g[k], span.id) > 0 <==> span.id in c.g[k])
    requires Closed(c.g) && Acyclic(c.g)
    ensures Partition(c, AfterSuccess(c, s, span))
  {
    var t := AfterSuccess(c, s, span);
    forall k | k in NewlyReady(c.g, s.indeg, span.id)
      ensures k !in s.spans && k !in s.inFlight && s.indeg[k] != 0
    {
      assert t.indeg[k] == s.indeg[k] - Count(c.g[k], span.id);
    }
  }

  lemma SuccessBlocked(c: Config, s: State, span: Span)
    requires SkippedBlocked(c, s) && !s.runFailed && Partition(c, s) && StartedIffZero(c, s) && span.id in s.inFlight
    requires var t := AfterSuccess(c, s, span);
             forall k :: k in c.g ==> (s.indeg[k] == 0 ==> t.indeg[k] == 0)
    ensures SkippedBlocked(c, AfterSuccess(c, s, span))
  {
    var t := AfterSuccess(c, s, span);
    forall k | k in t.spans && k in t.indeg && t.indeg[k] != 0 ensures Blocked(c, t, k) {
      assert Blocked(c, s, k);
      var d :| Edge(c.g, k, d) && d in s.spans && !s.spans[d].status.Succeeded?;
      assert d in t.spans && !t.spans[d].status.Succeeded?;
    }
  }

  lemma SuccessSnapshots(c: Config, s: State, span: Span)
    requires Partition(c, s) && ResultsMatch(c, s) && SnapshotsOk(c, s) && span.id in s.inFlight
    ensures SnapshotsOk(c, AfterSuccess(c, s, span))
  {
    var t := AfterSuccess(c, s, span);
    forall k | k in t.inFlight ensures SnapshotOk(c, t, k, t.inFlight[k]) {
      assert SnapshotOk(c, s, k, s.inFlight[k]);
    }
  }

  /** t differs from s in that the span was taken out of flight and some waiting tasks were
      marked as skipped; counters, queue and results are untouched. */
  ghost predicate Takes(c: Config, s: State, t: State, span: Span) {
    && span.id in s.inFlight
    && t.indeg == s.indeg && t.results == s.results && t.ready == s.ready && t.inFlight == s.inFlight - {span.id}
    && span.id in t.spans && t.spans[span.id] == span
    && (forall k :: k in s.spans ==> k in t.spans && t.spans[k] == s.spans[k])
    && (forall k :: k in t.spans && k !in s.spans && k != span.id ==>
          k in c.g && k in s.indeg && s.indeg[k] != 0 && t.spans[k] == SkippedSpan(k))
  }

  lemma TakesPartition(c: Config, s: State, t: State, span: Span)
    requires Takes(c, s, t, span) && Partition(c, s) && StartedIffZero(c, s)
    ensures Partition(c, t)
  {
  }

  lemma TakesStarted(c: Config, s: State, t: State, span: Span)
    requires Takes(c, s, t, span) && Partition(c, s) && StartedIffZero(c, s)
    ensures StartedIffZero(c, t)
  {
  }

  lemma TakesCounts(c: Config, s: State, t: State, span: Span)
    requires Takes(c, s, t, span) && CountsExact(c, s)
    ensures CountsExact(c, t)
  {
    hide Missing;
  }

  lemma TakesResults(c: Config, s: State, t: State, span: Span)
    requires Takes(c, s, t, span) && Partition(c, s) && ResultsMatch(c, s)
    requires t.runFailed || (!s.runFailed && !span.status.Succeeded?)
    ensures ResultsMatch(c, t)
  {
  }

  lemma TakesInv(c: Config, s: State, t: State, span: Span)
    requires Inv(c, s) && Takes(c, s, t, span) && (t.runFailed || (!s.runFailed && !span.status.Succeeded?))
    ensures Partition(c, t) && StartedIffZero(c, t) && CountsExact(c, t) && ResultsMatch(c, t) && SnapshotsOk(c, t)
  {
    SnapshotsKept(c, s, t);
    hide Takes, Partition, StartedIffZero, CountsExact, ResultsMatch, SnapshotsOk;
    TakesPartition(c, s, t, span);
    TakesStarted(c, s, t, span);
    TakesCounts(c, s, t, span);
    TakesResults(c, s, t, span);
  }

  lemma FatalTakes(c: Config, s: State, span: Span)
    requires span.id in s.inFlight && span.id !in s.spans
    ensures Takes(c, s, AfterFatal(s, span), span)
  {
    hide Contribution;
  }

  lemma FatalInv(c: Config, s: State, span: Span)
    requires Sound(c) && Inv(c, s) && s.phase.Running? && span.id in s.inFlight && !span.status.Succeeded?
    ensures Inv(c, AfterFatal(s, span))
  {
    hide Partition, StartedIffZero, CountsExact, ResultsMatch, SnapshotsOk, Takes, Sound, Contribution, Edge;
    NotInBoth(c, s, span.id);
    FatalTakes(c, s, span);
    TakesInv(c, s, AfterFatal(s, span), span);
    assert span.id in AfterFatal(s, span).spans;
  }

  /** The marked tasks were waiting: their counters are positive. */
  lemma FailureMarks(c: Config, s: State, span: Span)
    requires Sound(c) && Inv(c, s) && s.phase.Running? && span.id in s.inFlight && !span.status.Succeeded?
    ensures forall k :: k in c.g && DependsOn(c.g, k, span.id) ==> k in s.indeg && s.indeg[k] != 0 && k != span.id
  {
    NoSelfDependency(c.g, span.id);
    forall k | k in c.g && DependsOn(c.g, k, span.id) ensures k in s.indeg && s.indeg[k] != 0 {
      DescendantsBlocked(c, s, span.id, k);
    }
  }

  lemma FailureTakes(c: Config, s: State, span: Span)
    requires span.id in s.inFlight && span.id !in s.spans && s.spans.Keys <= c.g.Keys
    requires forall k :: k in c.g && DependsOn(c.g, k, span.id) ==> k in s.indeg && s.indeg[k] != 0 && k != span.id
    ensures Takes(c, s, AfterFailure(c, s, span), span)
  {
    hide DependsOn, Contribution;
  }

  lemma NotInBoth(c: Config, s: State, id: Id)
    requires Partition(c, s) && id in s.inFlight
    ensures id !in s.spans && s.spans.Keys <= c.g.Keys && s.indeg.Keys == c.g.Keys
  {
  }

  lemma FailureInv(c: Config, s: State, span: Span)
    requires Sound(c) && Inv(c, s) && s.phase.Running? && span.id in s.inFlight && !span.status.Succeeded?
    ensures Inv(c, AfterFailure(c, s, span))
  {
    hide Partition, StartedIffZero, CountsExact, ResultsMatch, SnapshotsOk, Takes, SkipClosed, SkippedBlocked, DependsOn;
    hide Sound, Contribution, WithDescendantsSkipped;
    NotFailedWhileRunning(c, s);
    NotInBoth(c, s, span.id);
    FailureMarks(c, s, span);
    FailureTakes(c, s, span);
    FailureSkipClosed(c, s, span);
    FailureBlocked(c, s, span);
    TakesInv(c, s, AfterFailure(c, s, span), span);
  }

  lemma FailureBlocked(c: Config, s: State, span: Span)
    requires Sound(c) && Inv(c, s) && s.phase.Running? && span.id in s.inFlight && !span.status.Succeeded?
    ensures SkippedBlocked(c, AfterFailure(c, s, span))
  {
    var t := AfterFailure(c, s, span);
    forall k | k in t.spans && k in t.indeg && t.indeg[k] != 0 ensures Blocked(c, t, k) {
      if k in s.spans {
        assert Blocked(c, s, k);
        var d :| Edge(c.g, k, d) && d in s.spans && !s.spans[d].status.Succeeded?;
        assert d in t.spans && t.spans[d] == s.spans[d];
      } else {
        assert DependsOn(c.g, k, span.id);
        var d := DependsFirstEdge(c.g, k, span.id);
        if d != span.id { DescendantsBlocked(c, s, span.id, d); }
        assert d in t.spans && !t.spans[d].status.Succeeded?;
      }
    }
  }

  lemma FailureSkipClosed(c: Config, s: State, span: Span)
    requires SkipClosed(c, s) && !s.runFailed && Partition(c, s)
    ensures SkipClosed(c, AfterFailure(c, s, span))
  {
    var t := AfterFailure(c, s, span);
    forall id, d | Edge(c.g, id, d) && d in t.spans && !t.spans[d].status.Succeeded?
      ensures id in t.spans
    {
      EdgeDepends(c.g, id, d);
      if d != span.id && d !in s.spans {
        DependsTransitive(c.g, id, d, span.id);
      }
    }
  }

  lemma DrainInv(c: Config, s: State, span: Span)
    requires Sound(c) && Inv(c, s) && Enabled(c, s, Drain(span))
    ensures Inv(c, Apply(c, s, Drain(span)))
  {
    hide Partition, StartedIffZero, CountsExact, ResultsMatch, SnapshotsOk, Takes, Sound, Edge;
    var t := Apply(c, s, Drain(span));
    NotInBoth(c, s, span.id);
    DrainTakes(c, s, span);
    TakesInv(c, s, t, span);
    StillUnsuccessful(c, s, t);
  }

  lemma DrainTakes(c: Config, s: State, span: Span)
    requires Enabled(c, s, Drain(span)) && span.id !in s.spans
    ensures Takes(c, s, Apply(c, s, Drain(span)), span)
  {
  }

  lemma StillUnsuccessful(c: Config, s: State, t: State)
    requires exists id :: id in s.spans && !s.spans[id].status.Succeeded?
    requires forall k :: k in s.spans ==> k in t.spans && t.spans[k] == s.spans[k]
    ensures exists id :: id in t.spans && !t.spans[id].status.Succeeded?
  {
    var bad :| bad in s.spans && !s.spans[bad].status.Succeeded?;
    assert bad in t.spans && !t.spans[bad].status.Succeeded?;
  }

  lemma EndDrainInv(c: Config, s: State)
    requires Sound(c) && Inv(c, s) && Enabled(c, s, EndDrain)
    ensures Inv(c, Apply(c, s, EndDrain))
  {
    var t := Apply(c, s, EndDrain);
    var bad :| bad in s.spans && !s.spans[bad].status.Succeeded?;
    assert bad in t.spans && !t.spans[bad].status.Succeeded?;
  }

  /** With nothing ready and nothing in flight, acyclicity leaves no task behind. */
  lemma {:induction false} NoneLeft(c: Config, s: State, r: map<Id, nat>, id: Id)
    requires Sound(c) && Inv(c, s) && !s.runFailed && s.ready == {} && s.inFlight == map[]
    requires IsRank(c.g, r) && id in c.g
    ensures id in s.spans
    decreases r[id]
  {
    forall d | d in c.g[id] ensures d in s.spans {
      assert Edge(c.g, id, d);
      NoneLeft(c, s, r, d);
    }
    ZeroMeansDepsDone(c, s, id);
    if d :| d in c.g[id] && d !in s.results {
      assert Edge(c.g, id, d);
    }
  }

  lemma CompleteInv(c: Config, s: State)
    requires Sound(c) && Inv(c, s) && Enabled(c, s, Complete)
    ensures Inv(c, Apply(c, s, Complete))
  {
    AcyclicIffRanked(c.g);
    var r :| IsRank(c.g, r);
    forall id | id in c.g ensures id in s.spans {
      NoneLeft(c, s, r, id);
    }
  }

  lemma StepInv(c: Config, s: State, a: Action)
    requires Sound(c) && Inv(c, s) && Enabled(c, s, a)
    ensures Inv(c, Apply(c, s, a))
  {
    hide Inv, AfterSuccess, AfterFatal, AfterFailure;
    match a {
      case Dispatch(id) => DispatchInv(c, s, id);
      case Receive(span) =>
        if span.status.Succeeded? {
          SuccessInv(c, s, span);
        } else if span.id in c.failFast {
          FatalInv(c, s, span);
        } else {
          FailureInv(c, s, span);
        }
      case Drain(span) => DrainInv(c, s, span);
      case EndDrain => EndDrainInv(c, s);
      case Complete => CompleteInv(c, s);
    }
  }

  /** The invariant holds throughout every run. */
  lemma {:induction false} RunInv(c: Config, tr: seq<State>, acts: seq<Action>, i: nat)
    requires Sound(c) && Run(c, tr, acts) && i < |tr|
    ensures Inv(c, tr[i])
    decreases i
  {
    hide Inv, Apply, Enabled;
    if i == 0 {
      InitInv(c);
    } else {
      RunInv(c, tr, acts, i - 1);
      assert StepAt(c, tr, acts, i - 1);
      StepInv(c, tr[i - 1], acts[i - 1]);
    }
  }
}
