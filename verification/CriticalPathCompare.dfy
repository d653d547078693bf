/** The two critical-path engines side by side: they always agree on the total duration, and the
    chains they list agree exactly as far as this module says. */
module CriticalPathCompare {
  import opened Graphs
  import opened Spans
  import opened CriticalPath
  import Go = CriticalPathGo
  import Py = CriticalPathPython

  /** On the same trace both engines return chains of the same total duration, whatever order
      their maps are visited in; each returns nothing exactly when the other does. */
  method BothEngines(t: Trace, visited: seq<Id>, inserted: seq<Id>) returns (go: seq<Id>, py: seq<Id>)
    requires Wellformed(t) && Visits(t, visited) && Visits(t, inserted)
    ensures Go.Returns(t, visited, go) && Py.Returns(t, inserted, py)
    ensures go == [] <==> py == []
    ensures go != [] ==>
              && NoneTakesLonger(t.spans, t.g, go) && NoneTakesLonger(t.spans, t.g, py)
              && Took(t.spans, go) == Took(t.spans, py)
  {
    hide *;
    ghost var unused;
    go, unused := Go.FindCriticalPath(t, visited);
    py := Py.ComputeCriticalPath(t, inserted);
    EquallyLong(t, go, py);
  }

  lemma EquallyLong(t: Trace, go: seq<Id>, py: seq<Id>)
    requires Go.IsCritical(t.spans, t.g, go) && Py.IsCritical(t.spans, t.g, py)
    ensures go == [] <==> py == []
    ensures go != [] ==>
              && NoneTakesLonger(t.spans, t.g, go) && NoneTakesLonger(t.spans, t.g, py)
              && Took(t.spans, go) == Took(t.spans, py)
  {
    hide SucceededChain, HasSucceeded, StartsAfresh, EndsThere;
  }

  // ---------- results are determined ----------

  lemma {:induction false} TrailUnique(t: Trace, p: seq<Id>, q: seq<Id>)
    requires Wellformed(t) && Trail(t, p) && Trail(t, q) && Last(p) == Last(q)
    ensures p == q
    decreases |p| + |q|
  {
    hide Best, Wellformed, CameFrom;
    if |p| > 1 {
      StepsFront(t, p);
      CameFromLink(t, Last(p), Last(p[..|p| - 1]));
    }
    if |q| > 1 {
      StepsFront(t, q);
      CameFromLink(t, Last(q), Last(q[..|q| - 1]));
    }
    if |p| > 1 && |q| > 1 {
      var a, b := p[..|p| - 1], q[..|q| - 1];
      CameFromUnique(t, Last(p), Last(a), Last(b));
      TrailUnique(t, a, b);
      assert p == a + [Last(p)] && q == b + [Last(q)];
    }
  }

  lemma EndUnique(t: Trace, order: seq<Id>, pick: set<Id>, a: Id, b: Id)
    requires Wellformed(t) && EndsAt(t, order, pick, a) && EndsAt(t, order, pick, b)
    ensures a == b
  {
    var i :| FirstTop(t, order, pick, i) && order[i] == a;
    var j :| FirstTop(t, order, pick, j) && order[j] == b;
    assert Best(t, a) <= Best(t, b) && Best(t, b) <= Best(t, a);
  }

  /** The Go engine's result is a function of the trace and the order of visits. */
  lemma GoDetermined(t: Trace, order: seq<Id>, p: seq<Id>, q: seq<Id>)
    requires Wellformed(t) && Go.Returns(t, order, p) && Go.Returns(t, order, q)
    ensures p == q
  {
    hide Best, Wellformed, EndsAt, CameFrom;
    if exists n :: Ok(t, n) {
      EndUnique(t, order, Sinks(t), Last(p), Last(q));
      TrailUnique(t, p, q);
    }
  }

  // ---------- from the same end ----------

  lemma {:induction false} PaidUnique(t: Trace, p: seq<Id>, q: seq<Id>)
    requires Wellformed(t) && Py.PaidTrail(t, p) && Py.PaidTrail(t, q) && Last(p) == Last(q)
    ensures p == q
    decreases |p| + |q|
  {
    hide Best, Wellformed, CameFrom;
    if |p| > 1 {
      StepsFront(t, p);
      CameFromLink(t, Last(p), Last(p[..|p| - 1]));
      assert Best(t, p[|p| - 2]) > 0;
    }
    if |q| > 1 {
      StepsFront(t, q);
      CameFromLink(t, Last(q), Last(q[..|q| - 1]));
      assert Best(t, q[|q| - 2]) > 0;
    }
    if |p| > 1 && |q| > 1 {
      var a, b := p[..|p| - 1], q[..|q| - 1];
      CameFromUnique(t, Last(p), Last(a), Last(b));
      PaidUnique(t, a, b);
      assert p == a + [Last(p)] && q == b + [Last(q)];
    }
  }

  /** The Python engine's result is a function of the trace and the order of insertion. */
  lemma PyDetermined(t: Trace, order: seq<Id>, p: seq<Id>, q: seq<Id>)
    requires Wellformed(t) && Py.Returns(t, order, p) && Py.Returns(t, order, q)
    ensures p == q
  {
    hide Best, Wellformed, EndsAt, CameFrom;
    if exists n :: Ok(t, n) {
      EndUnique(t, order, AllOk(t), Last(p), Last(q));
      PaidUnique(t, p, q);
    }
  }

  /** The paid part of a trail is what remains when its leading tasks of no cost are dropped. */
  lemma {:induction false} PaidPart(t: Trace, trail: seq<Id>) returns (k: nat)
    requires Wellformed(t) && Trail(t, trail)
    ensures k < |trail| && Py.PaidTrail(t, trail[k..]) && Last(trail[k..]) == Last(trail)
    ensures forall j :: 0 <= j < k ==> Best(t, trail[j]) == 0
    decreases |trail|
  {
    hide Best, Wellformed, CameFrom, Link;
    if |trail| == 1 {
      k := 0;
      assert trail[0..] == trail;
    } else {
      var n := |trail| - 1;
      var front := trail[..n];
      StepsFront(t, trail);
      CameFromLink(t, Last(trail), Last(front));
      BestIsOptimal(t, Last(front));
      if Best(t, Last(front)) > 0 {
        k := PaidPart(t, front);
        PaidMore(t, front, k, Last(trail));
        assert trail[k..] == front[k..] + [Last(trail)];
        assert forall j :: 0 <= j < k ==> trail[j] == front[j];
      } else {
        k := n;
        assert trail[n..] == [Last(trail)];
        FreeFront(t, front);
        assert forall j :: 0 <= j < k ==> trail[j] == front[j];
      }
    }
  }

  lemma PaidMore(t: Trace, front: seq<Id>, k: nat, n: Id)
    requires Wellformed(t) && k < |front| && Py.PaidTrail(t, front[k..]) && Best(t, Last(front)) > 0
    requires Ok(t, n) && CameFrom(t, n, Last(front))
    ensures Py.PaidTrail(t, front[k..] + [n])
  {
    hide Best, Wellformed, CameFrom, Py.FreeBelow;
    var a := front[k..];
    var b := a + [n];
    forall i | 0 < i < |b| ensures StepBackAt(t, b, i) {
      if i < |a| { assert StepBackAt(t, a, i); }
    }
    forall i | 0 <= i < |b| - 1 ensures Best(t, b[i]) > 0 {
      if i == |a| - 1 { assert b[i] == Last(front); }
    }
  }

  /** Below a task of no cost everything on its trail costs nothing. */
  lemma {:induction false} FreeFront(t: Trace, trail: seq<Id>)
    requires Wellformed(t) && Steps(t, trail) && Best(t, Last(trail)) <= 0
    ensures forall j :: 0 <= j < |trail| ==> Best(t, trail[j]) == 0
    decreases |trail|
  {
    hide Best, Wellformed, CameFrom;
    BestIsOptimal(t, Last(trail));
    if |trail| > 1 {
      var front := trail[..|trail| - 1];
      StepsFront(t, trail);
      CameFromLink(t, Last(trail), Last(front));
      OwnNonNegative(t, Last(trail));
      FreeFront(t, front);
      assert forall j :: 0 <= j < |front| ==> trail[j] == front[j];
    }
  }

  lemma OwnNonNegative(t: Trace, n: Id)
    requires Wellformed(t)
    ensures Own(t, n) >= 0
  {
  }

  /** From the same endpoint the Python chain is the Go chain without its leading tasks of no cost,
      so the chains are equal exactly when the Go chain is a single task or starts with a task
      that took time. */
  lemma SameEnd(t: Trace, go: seq<Id>, py: seq<Id>) returns (k: nat)
    requires Wellformed(t) && Trail(t, go) && Py.PaidTrail(t, py) && Last(go) == Last(py)
    ensures k < |go| && py == go[k..] && forall j :: 0 <= j < k ==> Best(t, go[j]) == 0
    ensures go == py <==> |go| == 1 || Own(t, go[0]) > 0
  {
    k := PaidPart(t, go);
    PaidUnique(t, py, go[k..]);
    SourceBest(t, go[0]);
    assert k == 0 ==> go[k..] == go;
    if k == 0 && |go| > 1 { assert Best(t, py[0]) > 0; }
  }

  /** Exactly when the two engines list the same chain, for given orders: they pick the same
      endpoint, and its trail is a single task or starts with one that took time. */
  lemma SameChainExactly(t: Trace, visited: seq<Id>, inserted: seq<Id>, go: seq<Id>, py: seq<Id>)
    requires Wellformed(t) && Go.Returns(t, visited, go) && Py.Returns(t, inserted, py)
    requires exists n :: Ok(t, n)
    ensures go == py <==> Last(go) == Last(py) && (|go| == 1 || Own(t, go[0]) > 0)
  {
    hide Best, Wellformed, EndsAt, CameFrom;
    if Last(go) == Last(py) {
      var k := SameEnd(t, go, py);
    }
  }

  // ---------- for every order ----------

  /** A task than which none costs more. */
  ghost predicate Greatest(t: Trace, n: Id)
    requires Wellformed(t)
  {
    Ok(t, n) && forall m :: Ok(t, m) ==> Best(t, m) <= Best(t, n)
  }

  /** Whatever the orders, both engines list the same chain. */
  ghost predicate AlwaysSame(t: Trace)
    requires Wellformed(t)
  {
    forall visited, inserted, go, py ::
      Visits(t, visited) && Visits(t, inserted) && Go.Returns(t, visited, go) && Py.Returns(t, inserted, py) ==> go == py
  }

  ghost predicate OneGreatest(t: Trace)
    requires Wellformed(t)
  {
    forall n, m :: Greatest(t, n) && Greatest(t, m) ==> n == m
  }

  /** No trail to a greatest task starts with a task of no duration that others follow. */
  ghost predicate PaidStart(t: Trace)
    requires Wellformed(t)
  {
    forall trail :: Trail(t, trail) && Greatest(t, Last(trail)) ==> |trail| == 1 || Own(t, trail[0]) > 0
  }

  lemma PyEndIsGreatest(t: Trace, order: seq<Id>, end: Id)
    requires Wellformed(t) && EndsAt(t, order, AllOk(t), end)
    ensures Greatest(t, end)
  {
    hide Best, Wellformed;
    var i :| FirstTop(t, order, AllOk(t), i) && order[i] == end;
    forall m | Ok(t, m) ensures Best(t, m) <= Best(t, end) {
      assert m in AllOk(t);
    }
  }

  lemma GoEndIsGreatest(t: Trace, order: seq<Id>, path: seq<Id>)
    requires Wellformed(t) && Go.Returns(t, order, path) && path != []
    ensures Greatest(t, Last(path))
  {
    Go.ReturnsLongest(t, order, path);
    forall m | Ok(t, m) ensures Best(t, m) <= Best(t, Last(path)) {
      BestIsOptimal(t, m);
      var chain :| ChainTo(t, chain, m) && Total(t, chain) == Best(t, m);
    }
  }

  /** Among the listed tasks of a set that has one, some position holds the first of greatest cost. */
  lemma {:induction false} FirstTopExists(t: Trace, order: seq<Id>, pick: set<Id>, n: nat) returns (at: nat)
    requires Wellformed(t) && n <= |order| && (forall x :: x in pick ==> Ok(t, x))
    requires exists k :: 0 <= k < n && order[k] in pick
    ensures at < n && order[at] in pick
    ensures forall k :: 0 <= k < n && order[k] in pick ==> Best(t, order[k]) <= Best(t, order[at])
    ensures forall k :: 0 <= k < at && order[k] in pick ==> Best(t, order[k]) < Best(t, order[at])
    decreases n
  {
    hide Best, Wellformed;
    if k :| 0 <= k < n - 1 && order[k] in pick {
      at := FirstTopExists(t, order, pick, n - 1);
      if order[n - 1] in pick && Best(t, order[n - 1]) > Best(t, order[at]) { at := n - 1; }
    } else {
      at := n - 1;
    }
  }

  lemma EndExists(t: Trace, order: seq<Id>, pick: set<Id>) returns (end: Id)
    requires Wellformed(t) && Visits(t, order) && pick != {} && (forall x :: x in pick ==> Ok(t, x))
    ensures end in pick && EndsAt(t, order, pick, end)
  {
    var x :| x in pick;
    assert x in order;
    var k :| 0 <= k < |order| && order[k] == x;
    hide Best, Wellformed;
    var at := FirstTopExists(t, order, pick, |order|);
    forall n | n in pick && Ok(t, n) ensures Best(t, n) <= Best(t, order[at]) {
      var j :| 0 <= j < |order| && order[j] == n;
    }
    assert FirstTop(t, order, pick, at);
    end := order[at];
  }

  lemma {:induction false} TrailExists(t: Trace, r: map<Id, nat>, n: Id) returns (trail: seq<Id>)
    requires Wellformed(t) && IsRank(t.g, r) && Ok(t, n)
    ensures Trail(t, trail) && Last(trail) == n
    decreases r[n]
  {
    var p := SourceOrCameFrom(t, n);
    if p.None? {
      trail := [n];
    } else {
      CameFromLink(t, n, p.value);
      var front := TrailExists(t, r, p.value);
      hide Best, Wellformed, CameFrom;
      trail := front + [n];
      forall i | 0 < i < |trail| ensures StepBackAt(t, trail, i) {
        if i < |front| { assert StepBackAt(t, front, i); }
      }
    }
  }

  lemma TrailTo(t: Trace, n: Id) returns (trail: seq<Id>)
    requires Wellformed(t) && Ok(t, n)
    ensures Trail(t, trail) && Last(trail) == n
  {
    AcyclicIffRanked(t.g);
    var r :| IsRank(t.g, r);
    trail := TrailExists(t, r, n);
  }

  /** For every order of visits the Go engine has a result ... */
  lemma GoReturns(t: Trace, order: seq<Id>) returns (path: seq<Id>)
    requires Wellformed(t) && Visits(t, order) && exists n :: Ok(t, n)
    ensures Go.Returns(t, order, path)
  {
    Go.SinkOrNothing(t);
    var s :| Ok(t, s) && IsSink(t, s);
    assert s in Sinks(t);
    var end := EndExists(t, order, Sinks(t));
    path := TrailTo(t, end);
  }

  /** ... and so has the Python engine, whichever task of an order it ends at. */
  lemma PyReturns(t: Trace, order: seq<Id>, end: Id) returns (path: seq<Id>)
    requires Wellformed(t) && Ok(t, end) && EndsAt(t, order, AllOk(t), end)
    ensures Py.Returns(t, order, path) && path != [] && Last(path) == end
  {
    var trail := TrailTo(t, end);
    var k := PaidPart(t, trail);
    path := trail[k..];
  }

  /** An order that puts a given greatest task first makes the Python engine end there. */
  lemma PyEndsAtFirst(t: Trace, order: seq<Id>, n: Id)
    requires Wellformed(t) && Greatest(t, n)
    ensures EndsAt(t, [n] + order, AllOk(t), n)
  {
    assert FirstTop(t, [n] + order, AllOk(t), 0);
  }

  lemma {:induction false} Listing(ids: set<Id>) returns (order: seq<Id>)
    ensures forall n :: n in order <==> n in ids
    decreases |ids|
  {
    if n :| n in ids {
      var rest := Listing(ids - {n});
      order := [n] + rest;
    } else {
      order := [];
    }
  }

  lemma SpansListed(t: Trace) returns (order: seq<Id>)
    ensures Visits(t, order)
  {
    order := Listing(t.spans.Keys);
  }

  lemma Agreed(t: Trace, visited: seq<Id>, inserted: seq<Id>, go: seq<Id>, py: seq<Id>)
    requires Wellformed(t) && AlwaysSame(t)
    requires Visits(t, visited) && Visits(t, inserted) && Go.Returns(t, visited, go) && Py.Returns(t, inserted, py)
    ensures go == py
  {
  }

  /** If the engines agree for every order, only one task has the greatest cost. */
  lemma AgreementNeedsOne(t: Trace, a: Id, b: Id)
    requires Wellformed(t) && AlwaysSame(t) && Greatest(t, a) && Greatest(t, b)
    ensures a == b
  {
    hide *;
    var order := SpansListed(t);
    GreatestIsOk(t, a);
    var go := GoReturns(t, order);
    GreatestIsWhereGoEnds(t, order, go, a);
    GreatestIsWhereGoEnds(t, order, go, b);
  }

  lemma GreatestIsWhereGoEnds(t: Trace, order: seq<Id>, go: seq<Id>, n: Id)
    requires Wellformed(t) && AlwaysSame(t) && Greatest(t, n) && Visits(t, order) && Go.Returns(t, order, go)
    ensures go != [] && Last(go) == n
  {
    hide *;
    ListedFirst(t, order, n);
    PyEndsAtFirst(t, order, n);
    GreatestIsOk(t, n);
    var py := PyReturns(t, [n] + order, n);
    Agreed(t, order, [n] + order, go, py);
  }

  lemma GreatestIsOk(t: Trace, n: Id)
    requires Wellformed(t) && Greatest(t, n)
    ensures Ok(t, n)
  {
  }

  lemma ListedFirst(t: Trace, order: seq<Id>, n: Id)
    requires Visits(t, order) && Wellformed(t) && Greatest(t, n)
    ensures Visits(t, [n] + order)
  {
  }

  lemma AgreementNeedsPaid(t: Trace, trail: seq<Id>)
    requires Wellformed(t) && AlwaysSame(t) && Trail(t, trail) && Greatest(t, Last(trail))
    ensures |trail| == 1 || Own(t, trail[0]) > 0
  {
    var n := Last(trail);
    hide *;
    var order := SpansListed(t);
    GreatestIsOk(t, n);
    var go := GoReturns(t, order);
    GreatestIsWhereGoEnds(t, order, go, n);
    ListedFirst(t, order, n);
    PyEndsAtFirst(t, order, n);
    var py := PyReturns(t, [n] + order, n);
    Agreed(t, order, [n] + order, go, py);
    SameChainExactly(t, order, [n] + order, go, py);
    GoTrail(t, order, go);
    TrailUnique(t, go, trail);
  }

  lemma GoTrail(t: Trace, order: seq<Id>, go: seq<Id>)
    requires Wellformed(t) && Go.Returns(t, order, go) && go != []
    ensures Trail(t, go)
  {
  }

  /** Exactly when both engines list the same chain whatever order their maps are in: when one task
      alone has the greatest cost, and the way to it is a single task or starts with one that took
      time. */
  lemma AlwaysSameExactly(t: Trace)
    requires Wellformed(t)
    ensures AlwaysSame(t) <==> OneGreatest(t) && PaidStart(t)
  {
    hide Best, Wellformed, EndsAt, CameFrom, Greatest;
    if AlwaysSame(t) {
      forall n, m | Greatest(t, n) && Greatest(t, m) ensures n == m { AgreementNeedsOne(t, n, m); }
      forall trail | Trail(t, trail) && Greatest(t, Last(trail)) ensures |trail| == 1 || Own(t, trail[0]) > 0 {
        AgreementNeedsPaid(t, trail);
      }
    }
    if OneGreatest(t) && PaidStart(t) {
      forall visited, inserted, go, py |
        Visits(t, visited) && Visits(t, inserted) && Go.Returns(t, visited, go) && Py.Returns(t, inserted, py)
        ensures go == py
      {
        OneIsEnough(t, visited, inserted, go, py);
      }
    }
  }

  lemma OneIsEnough(t: Trace, visited: seq<Id>, inserted: seq<Id>, go: seq<Id>, py: seq<Id>)
    requires Wellformed(t) && OneGreatest(t) && PaidStart(t)
    requires Go.Returns(t, visited, go) && Py.Returns(t, inserted, py)
    ensures go == py
  {
    hide Best, Wellformed, EndsAt, CameFrom, Greatest;
    if exists n :: Ok(t, n) {
      GoEndIsGreatest(t, visited, go);
      PyEndIsGreatest(t, inserted, Last(py));
      SameChainExactly(t, visited, inserted, go, py);
    }
  }

  // ---------- tasks that all take time ----------

  ghost predicate AllTakeTime(t: Trace) {
    forall n :: Ok(t, n) ==> t.spans[n].durationMs > 0
  }

  lemma PaidEverywhere(t: Trace, n: Id)
    requires Wellformed(t) && AllTakeTime(t) && Ok(t, n)
    ensures Best(t, n) > 0
  {
    BestIsOptimal(t, n);
    SoloChain(t, n);
  }

  /** If every task took time, the Python chain too runs from a task with no succeeded dependency
      to one with no succeeded dependent. */
  lemma PositiveSourceToSink(t: Trace, order: seq<Id>, path: seq<Id>)
    requires Wellformed(t) && AllTakeTime(t) && Py.Returns(t, order, path) && path != []
    ensures Trail(t, path) && IsSink(t, Last(path))
  {
    forall d ensures !Link(t, d, path[0]) {
      if Link(t, d, path[0]) { PaidEverywhere(t, d); }
    }
    PyEndIsGreatest(t, order, Last(path));
    forall m ensures !Link(t, Last(path), m) {
      if Link(t, Last(path), m) { LinkCosts(t, Last(path), m); }
    }
  }

  /** A dependent costs at least its own duration more. */
  lemma LinkCosts(t: Trace, d: Id, n: Id)
    requires Wellformed(t) && Link(t, d, n)
    ensures Best(t, n) >= Best(t, d) + Own(t, n)
  {
    BestIsOptimal(t, d);
    BestIsOptimal(t, n);
    var chain :| ChainTo(t, chain, d) && Total(t, chain) == Best(t, d);
    ExtendChain(t, chain, n);
  }

  /** If every task took time, the engines agree for every order exactly when one task alone has
      the greatest cost. */
  lemma PositiveSameExactly(t: Trace)
    requires Wellformed(t) && AllTakeTime(t)
    ensures AlwaysSame(t) <==> OneGreatest(t)
  {
    forall trail | Trail(t, trail) && Greatest(t, Last(trail)) ensures |trail| == 1 || Own(t, trail[0]) > 0 {
      assert Ok(t, trail[0]);
    }
    AlwaysSameExactly(t);
  }

  /** A chain than which every other is shorter is what both engines list, for every order. */
  lemma UniqueLongest(t: Trace, visited: seq<Id>, inserted: seq<Id>, go: seq<Id>, py: seq<Id>, chain: seq<Id>)
    requires Wellformed(t) && Go.Returns(t, visited, go) && Py.Returns(t, inserted, py)
    requires Longest(t, chain) && forall other :: Longest(t, other) ==> other == chain
    ensures go == py == chain
  {
    assert Ok(t, chain[0]);
    Go.ReturnsLongest(t, visited, go);
    Py.ReturnsLongest(t, inserted, py);
  }

  // ---------- where the chains differ ----------

  /** Two independent tasks of five milliseconds: each engine lists the one it comes to first, so
      the chains differ although no duration is zero. */
  lemma TwoEqualTasks() returns (t: Trace)
    ensures Wellformed(t) && AllTakeTime(t) && t.spans.Keys == {"a", "b"}
    ensures Go.Returns(t, ["a", "b"], ["a"]) && Go.Returns(t, ["b", "a"], ["b"])
    ensures Py.Returns(t, ["a", "b"], ["a"]) && Py.Returns(t, ["b", "a"], ["b"])
    ensures !AlwaysSame(t)
  {
    var a := SkippedSpan("a").(status := Succeeded, durationMs := 5);
    var b := SkippedSpan("b").(status := Succeeded, durationMs := 5);
    t := Trace(map["a" := a, "b" := b], map["a" := [], "b" := []]);
    var r: map<Id, nat> := map["a" := 0, "b" := 0];
    assert IsRank(t.g, r);
    RankMeansAcyclic(t.g, r);
    LoneTask(t, "a");
    LoneTask(t, "b");
    FirstOfTwo(t, "a", "b");
    FirstOfTwo(t, "b", "a");
    DifferSomewhere(t, ["a", "b"], ["b", "a"], ["a"], ["b"]);
  }

  lemma LoneTask(t: Trace, n: Id)
    requires Wellformed(t) && Ok(t, n) && (forall m :: m in t.g ==> t.g[m] == [])
    ensures IsSource(t, n) && IsSink(t, n) && Best(t, n) == Own(t, n) && Trail(t, [n])
  {
    SourceBest(t, n);
  }

  lemma FirstOfTwo(t: Trace, x: Id, y: Id)
    requires Wellformed(t) && t.spans.Keys == {x, y} && Ok(t, x) && Ok(t, y) && Best(t, x) == Best(t, y) > 0
    requires IsSink(t, x) && Trail(t, [x])
    ensures Go.Returns(t, [x, y], [x]) && Py.Returns(t, [x, y], [x])
  {
    hide Best, Wellformed, IsSink;
    assert x in Sinks(t) && x in AllOk(t);
    forall n | Ok(t, n) ensures n == x || n == y { assert n in t.spans.Keys; }
    assert FirstTop(t, [x, y], Sinks(t), 0);
    assert FirstTop(t, [x, y], AllOk(t), 0);
  }

  lemma DifferSomewhere(t: Trace, visited: seq<Id>, inserted: seq<Id>, go: seq<Id>, py: seq<Id>)
    requires Wellformed(t) && Visits(t, visited) && Visits(t, inserted)
    requires Go.Returns(t, visited, go) && Py.Returns(t, inserted, py) && go != py
    ensures !AlwaysSame(t)
  {
  }

  /** Two tasks of no duration, the second after the first: the Go engine lists both, for every
      order; the Python engine only the one its order puts first.  The Python loop itself holds a
      dependency before its dependent, so after a run it lists "a" alone; the other order needs a
      dictionary from elsewhere. */
  lemma TwoFreeTasks() returns (t: Trace)
    ensures Wellformed(t) && t.spans.Keys == {"a", "b"}
    ensures Go.Returns(t, ["a", "b"], ["a", "b"]) && Go.Returns(t, ["b", "a"], ["a", "b"])
    ensures Py.Returns(t, ["a", "b"], ["a"]) && Py.Returns(t, ["b", "a"], ["b"])
  {
    var a := SkippedSpan("a").(status := Succeeded);
    var b := SkippedSpan("b").(status := Succeeded);
    t := Trace(map["a" := a, "b" := b], map["a" := [], "b" := ["a"]]);
    var r: map<Id, nat> := map["a" := 0, "b" := 1];
    assert IsRank(t.g, r);
    RankMeansAcyclic(t.g, r);
    SourceBest(t, "a");
    assert FirstBest(t, "b", 1, 0);
    CameFromLink(t, "b", "a");
    FreeReturns(t);
  }

  lemma FreeReturns(t: Trace)
    requires Wellformed(t) && t.spans.Keys == {"a", "b"} && Ok(t, "a") && Ok(t, "b")
    requires t.g == map["a" := [], "b" := ["a"]] && Best(t, "a") == 0 && Best(t, "b") == 0 && CameFrom(t, "b", "a")
    ensures Go.Returns(t, ["a", "b"], ["a", "b"]) && Go.Returns(t, ["b", "a"], ["a", "b"])
    ensures Py.Returns(t, ["a", "b"], ["a"]) && Py.Returns(t, ["b", "a"], ["b"])
  {
    hide Best, Wellformed, CameFrom;
    assert Link(t, "a", "b");
    forall n | Ok(t, n) ensures n == "a" || n == "b" { assert n in t.spans.Keys; }
    assert Sinks(t) == {"b"} && AllOk(t) == {"a", "b"};
    assert FirstTop(t, ["a", "b"], Sinks(t), 1) && FirstTop(t, ["b", "a"], Sinks(t), 0);
    assert FirstTop(t, ["a", "b"], AllOk(t), 0) && FirstTop(t, ["b", "a"], AllOk(t), 0);
    assert StepBackAt(t, ["a", "b"], 1);
    assert Trail(t, ["a", "b"]);
    assert Py.PaidTrail(t, ["a"]) && Py.PaidTrail(t, ["b"]);
  }
}
