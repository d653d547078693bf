/** The Go engine's critical path: memo maps filled by recursion, sink-only endpoint, back
    pointers with "" as the sentinel. */
module CriticalPathGo {
  import opened Graphs
  import opened Spans
  import opened CriticalPath

  /** A finished memo entry is the best cost, and its back pointer is the first best dependency. */
  ghost predicate Finished(t: Trace, bestCost: map<Id, int>, bestPrev: map<Id, Id>, n: Id)
    requires Wellformed(t)
  {
    && n in bestCost && n in bestPrev && Ok(t, n) && bestCost[n] == Best(t, n)
    && (bestPrev[n] == "" ==> IsSource(t, n))
    && (bestPrev[n] != "" ==> CameFrom(t, n, bestPrev[n]) && bestPrev[n] in bestCost)
  }

  ghost predicate AllFinished(t: Trace, bestCost: map<Id, int>, bestPrev: map<Id, Id>)
    requires Wellformed(t)
  {
    bestCost.Keys == bestPrev.Keys && forall n {:trigger Finished(t, bestCost, bestPrev, n)} ::
      n in bestCost ==> Finished(t, bestCost, bestPrev, n)
  }

  /** The first best dependency among the first i entries of the dependency list; "" and -1 if
      none of them succeeded. */
  ghost predicate BestOf(t: Trace, node: Id, i: nat, prevBest: int, prevNode: Id)
    requires Wellformed(t)
  {
    && node in t.g && i <= |t.g[node]|
    && if prevNode == "" then prevBest == -1 && forall k :: 0 <= k < i ==> !Ok(t, t.g[node][k])
       else exists k :: FirstBest(t, node, i, k) && t.g[node][k] == prevNode && prevBest == Best(t, prevNode)
  }

  lemma BestNext(t: Trace, node: Id, i: nat, prevBest: int, prevNode: Id)
    requires Wellformed(t) && BestOf(t, node, i, prevBest, prevNode) && i < |t.g[node]|
    ensures var dep := t.g[node][i];
            && (!Ok(t, dep) ==> BestOf(t, node, i + 1, prevBest, prevNode))
            && (Ok(t, dep) ==> if Best(t, dep) > prevBest then BestOf(t, node, i + 1, Best(t, dep), dep)
                               else BestOf(t, node, i + 1, prevBest, prevNode))
  {
    var dep := t.g[node][i];
    if Ok(t, dep) {
      BestIsOptimal(t, dep);
      assert dep in t.g;
    }
    hide Best, Optimal, Acyclic, Closed;
    if prevNode == "" {
      if Ok(t, dep) { assert FirstBest(t, node, i + 1, i); }
    } else {
      var k :| FirstBest(t, node, i, k) && t.g[node][k] == prevNode && prevBest == Best(t, prevNode);
      if Ok(t, dep) && Best(t, dep) > prevBest {
        assert FirstBest(t, node, i + 1, i);
      } else {
        assert FirstBest(t, node, i + 1, k);
      }
    }
  }

  lemma BestDecides(t: Trace, node: Id, prevBest: int, prevNode: Id)
    requires Wellformed(t) && Ok(t, node) && BestOf(t, node, |t.g[node]|, prevBest, prevNode)
    ensures Best(t, node) == Own(t, node) + if prevBest < 0 then 0 else prevBest
    ensures if prevNode == "" then IsSource(t, node) else CameFrom(t, node, prevNode)
  {
    hide Best, Optimal, Acyclic, Closed;
    if prevNode == "" {
      forall d ensures !Link(t, d, node) { }
      SourceBest(t, node);
    } else {
      var k :| FirstBest(t, node, |t.g[node]|, k) && t.g[node][k] == prevNode && prevBest == Best(t, prevNode);
      CameFromLink(t, node, prevNode);
      BestIsOptimal(t, prevNode);
    }
  }

  lemma FinishNode(t: Trace, bestCost: map<Id, int>, bestPrev: map<Id, Id>, node: Id, prevBest: int, prevNode: Id)
    requires Wellformed(t) && AllFinished(t, bestCost, bestPrev) && Ok(t, node) && node !in bestCost
    requires BestOf(t, node, |t.g[node]|, prevBest, prevNode) && (prevNode != "" ==> prevNode in bestCost)
    ensures var cost := Own(t, node) + if prevBest < 0 then 0 else prevBest;
            AllFinished(t, bestCost[node := cost], bestPrev[node := prevNode])
  {
    BestDecides(t, node, prevBest, prevNode);
    var cost := Own(t, node) + if prevBest < 0 then 0 else prevBest;
    hide Best, Wellformed, Own, IsSource, Ok, CameFrom;
    var costs, prevs := bestCost[node := cost], bestPrev[node := prevNode];
    forall n | n in costs ensures Finished(t, costs, prevs, n) {
      if n != node { assert Finished(t, bestCost, bestPrev, n); }
    }
  }

  lemma SameKeys(t: Trace, bestCost: map<Id, int>, bestPrev: map<Id, Id>)
    requires Wellformed(t) && AllFinished(t, bestCost, bestPrev)
    ensures bestCost.Keys == bestPrev.Keys
  {
  }

  lemma FinishedCost(t: Trace, bestCost: map<Id, int>, bestPrev: map<Id, Id>, n: Id)
    requires Wellformed(t) && AllFinished(t, bestCost, bestPrev) && n in bestCost
    ensures Ok(t, n) && bestCost[n] == Best(t, n) >= 0
  {
    assert Finished(t, bestCost, bestPrev, n);
    BestIsOptimal(t, n);
  }

  /** Nodes marked as computed are finished, except those whose call is still open. */
  ghost predicate Memo(t: Trace, bestCost: map<Id, int>, bestPrev: map<Id, Id>, computed: set<Id>, active: set<Id>) {
    && Wellformed(t)
    && AllFinished(t, bestCost, bestPrev)
    && computed == bestCost.Keys + active && active !! bestCost.Keys
    && computed <= t.spans.Keys
  }

  lemma CloseMemo(t: Trace, bestCost: map<Id, int>, bestPrev: map<Id, Id>, computed: set<Id>, open: set<Id>,
                  node: Id, prevBest: int, prevNode: Id)
    requires Memo(t, bestCost, bestPrev, computed, open + {node}) && Ok(t, node) && node !in open
    requires BestOf(t, node, |t.g[node]|, prevBest, prevNode) && (prevNode != "" ==> prevNode in bestCost)
    ensures var cost := Own(t, node) + if prevBest < 0 then 0 else prevBest;
            && Memo(t, bestCost[node := cost], bestPrev[node := prevNode], computed, open) && cost == Best(t, node)
  {
    hide AllFinished, Wellformed, Own, BestOf, Best;
    assert node in open + {node};
    BestDecides(t, node, prevBest, prevNode);
    FinishNode(t, bestCost, bestPrev, node, prevBest, prevNode);
    SameKeys(t, bestCost, bestPrev);
  }

  class PathFinder {
    const t: Trace
    var bestCost: map<Id, int>
    var bestPrev: map<Id, Id>
    var computed: set<Id>
    ghost var active: set<Id>

    constructor (t: Trace)
      requires Wellformed(t)
      ensures Valid() && this.t == t && active == {} && bestCost == map[]
    {
      this.t := t;
      bestCost, bestPrev, computed, active := map[], map[], {}, {};
    }

    ghost predicate Valid()
      reads this
    {
      Memo(t, bestCost, bestPrev, computed, active)
    }

    /** The greatest total of a chain ending at `node`.  No open call is below `node`, so the
        memo is never read before it is written. */
    method Cost(node: Id) returns (c: int)
      requires Valid() && Ok(t, node)
      requires forall a :: a in active ==> DependsOn(t.g, a, node)
      modifies this
      ensures Valid() && active == old(active) && old(bestCost).Keys <= bestCost.Keys
      ensures node in bestCost && c == Best(t, node)
      decreases t.spans.Keys - computed
    {
      hide AllFinished, DependsOn, Acyclic, BestOf, Closed, Best;
      NoSelfDependency(t.g, node);
      if node in computed {
        FinishedCost(t, bestCost, bestPrev, node);
        return bestCost[node];
      }
      ghost var open := active;
      computed := computed + {node};
      active := active + {node};
      var own := t.spans[node].durationMs;
      var prevBest, prevNode := -1, "";
      var deps := t.g[node];
      NothingBest(t, node);
      var i := 0;
      while i < |deps|
        invariant 0 <= i <= |deps|
        invariant Valid() && active == open + {node}
        invariant computed >= old(computed) + {node}
        invariant old(bestCost).Keys <= bestCost.Keys
        invariant BestOf(t, node, i, prevBest, prevNode)
        invariant prevNode != "" ==> prevNode in bestCost
      {
        var dep := deps[i];
        BestNext(t, node, i, prevBest, prevNode);
        if Ok(t, dep) {
          OpenCallsAbove(t.g, open, node, dep);
          var cost := Cost(dep);
          if cost > prevBest {
            prevBest, prevNode := cost, dep;
          }
        }
        i := i + 1;
      }
      CloseMemo(t, bestCost, bestPrev, computed, open, node, prevBest, prevNode);
      hide Memo;
      var prev := if prevBest < 0 then 0 else prevBest;
      bestCost := bestCost[node := own + prev];
      bestPrev := bestPrev[node := prevNode];
      active := open;
      c := bestCost[node];
    }
  }

  lemma NothingBest(t: Trace, node: Id)
    requires Wellformed(t) && node in t.g
    ensures BestOf(t, node, 0, -1, "")
  {
  }

  /** Whatever is open above a node is open above its dependencies. */
  lemma OpenCallsAbove(g: Graph, open: set<Id>, node: Id, dep: Id)
    requires forall a :: a in open ==> DependsOn(g, a, node)
    requires Closed(g) && node in g && dep in g[node]
    ensures forall a :: a in open + {node} ==> DependsOn(g, a, dep)
  {
    EdgeDepends(g, node, dep);
    forall a | a in open ensures DependsOn(g, a, dep) {
      DependsTransitive(g, a, node, dep);
    }
  }

  /** How many succeeded tasks depend on each task; only "none" or "some" matters. */
  method CountIncoming(t: Trace) returns (incoming: map<Id, int>)
    requires Wellformed(t)
    ensures forall n :: Ok(t, n) ==> ((n !in incoming || incoming[n] <= 0) <==> IsSink(t, n))
  {
    incoming := map[];
    var todo := t.spans.Keys;
    while todo != {}
      invariant todo <= t.spans.Keys
      invariant forall n :: n in incoming ==> incoming[n] > 0 && exists m :: m !in todo && Link(t, n, m)
      invariant forall n, m :: Link(t, n, m) && m !in todo ==> n in incoming
      decreases todo
    {
      var id :| id in todo;
      if Ok(t, id) {
        var deps := t.g[id];
        for i := 0 to |deps|
          invariant forall n :: n in incoming ==> incoming[n] > 0 && exists m :: m !in todo - {id} && Link(t, n, m)
          invariant forall n, m :: Link(t, n, m) && m !in todo ==> n in incoming
          invariant forall k :: 0 <= k < i && Ok(t, deps[k]) ==> deps[k] in incoming
        {
          var dep := deps[i];
          if Ok(t, dep) {
            assert Link(t, dep, id);
            incoming := incoming[dep := (if dep in incoming then incoming[dep] else 0) + 1];
          }
        }
      }
      todo := todo - {id};
    }
  }

  /** The first sink of greatest cost in the order in which the spans are visited; "" without a
      sink. */
  method PickEnd(f: PathFinder, incoming: map<Id, int>, order: seq<Id>) returns (bestEnd: Id)
    requires f.Valid() && f.active == {} && Visits(f.t, order)
    requires forall n :: Ok(f.t, n) ==> ((n !in incoming || incoming[n] <= 0) <==> IsSink(f.t, n))
    modifies f
    ensures f.Valid() && f.active == {}
    ensures bestEnd != "" ==> bestEnd in f.bestCost && EndsAt(f.t, order, Sinks(f.t), bestEnd)
    ensures bestEnd == "" ==> Sinks(f.t) == {}
  {
    hide AllFinished, Best, Acyclic, Closed, IsSink;
    var total := -1;
    bestEnd := "";
    ghost var at := -1;
    for i := 0 to |order|
      invariant f.Valid() && f.active == {}
      invariant bestEnd == "" ==> total == -1 && forall j :: 0 <= j < i ==> order[j] !in Sinks(f.t)
      invariant bestEnd != "" ==> bestEnd in f.bestCost && Top(f.t, order, i, at, total) && order[at] == bestEnd
    {
      var id := order[i];
      if Ok(f.t, id) && !(id in incoming && incoming[id] > 0) {
        SinkKnown(f.t, id);
        var c := f.Cost(id);
        if c > total {
          total, bestEnd, at := c, id, i;
        }
      }
    }
    if bestEnd != "" { TopIsFirst(f.t, order, at, total); } else { NoSinkSeen(f.t, order); }
  }

  lemma SinkKnown(t: Trace, id: Id)
    requires Wellformed(t) && Ok(t, id)
    ensures id in t.g && Best(t, id) >= 0
  {
    BestIsOptimal(t, id);
  }

  lemma NoSinkSeen(t: Trace, order: seq<Id>)
    requires Visits(t, order) && forall j :: 0 <= j < |order| ==> order[j] !in Sinks(t)
    ensures Sinks(t) == {}
  {
    forall n | n in t.spans ensures n !in Sinks(t) {
      var j :| 0 <= j < |order| && order[j] == n;
    }
  }

  /** The first sink of greatest cost among the first i spans visited is at position `at`. */
  ghost predicate Top(t: Trace, order: seq<Id>, i: nat, at: int, total: int)
    requires Wellformed(t)
  {
    && 0 <= at < i <= |order| && order[at] in Sinks(t) && total == Best(t, order[at])
    && (forall j :: 0 <= j < i && order[j] in Sinks(t) ==> Best(t, order[j]) <= total)
    && (forall j :: 0 <= j < at && order[j] in Sinks(t) ==> Best(t, order[j]) < total)
  }

  lemma TopIsFirst(t: Trace, order: seq<Id>, at: int, total: int)
    requires Wellformed(t) && Visits(t, order) && Top(t, order, |order|, at, total)
    ensures EndsAt(t, order, Sinks(t), order[at])
  {
    hide Best, IsSink;
    forall n | n in Sinks(t) && Ok(t, n) ensures Best(t, n) <= Best(t, order[at]) {
      assert n in order;
    }
    assert FirstTop(t, order, Sinks(t), at);
  }

  /** The engine's fallback endpoint: any succeeded task. */
  method AnySucceeded(t: Trace) returns (id: Id)
    ensures id != "" ==> Ok(t, id)
    ensures id == "" && "" !in t.spans ==> forall n :: !Ok(t, n)
  {
    var todo := t.spans.Keys;
    while todo != {}
      invariant todo <= t.spans.Keys && forall n :: n in t.spans.Keys - todo ==> !Ok(t, n)
      decreases todo
    {
      var n :| n in todo;
      if Ok(t, n) {
        return n;
      }
      todo := todo - {n};
    }
    id := "";
  }

  /** Follows the back pointers from the endpoint. */
  method FollowBack(f: PathFinder, end: Id) returns (back: seq<Id>)
    requires f.Valid() && f.active == {} && end in f.bestCost
    ensures back != [] && BackSteps(f.t, back) && back[0] == end && IsSource(f.t, Last(back))
  {
    hide Best, Closed, Acyclic, IsSource, CameFrom;
    AcyclicIffRanked(f.t.g);
    ghost var r: map<Id, nat> :| IsRank(f.t.g, r);
    back := [];
    var node := end;
    while node != ""
      invariant BackSteps(f.t, back)
      invariant back == [] ==> node == end
      invariant back != [] ==> back[0] == end && (node != "" ==> CameFrom(f.t, Last(back), node))
      invariant node != "" ==> node in f.bestCost
      invariant node == "" ==> back != [] && IsSource(f.t, Last(back))
      decreases if node == "" then 0 else r[node] + 1
    {
      assert Finished(f.t, f.bestCost, f.bestPrev, node);
      back := back + [node];
      if f.bestPrev[node] != "" { CameFromEdge(f.t, node, f.bestPrev[node]); }
      node := f.bestPrev[node];
    }
  }

  lemma CameFromEdge(t: Trace, n: Id, p: Id)
    requires Wellformed(t) && Ok(t, n) && CameFrom(t, n, p)
    ensures Edge(t.g, n, p)
  {
    CameFromLink(t, n, p);
  }

  /** What the engine returns when it visits the spans in a given order: the trail to the first
      sink of greatest cost, and nothing only when nothing succeeded. */
  ghost predicate Returns(t: Trace, order: seq<Id>, path: seq<Id>)
    requires Wellformed(t)
  {
    if exists n :: Ok(t, n) then Trail(t, path) && EndsAt(t, order, Sinks(t), Last(path)) else path == []
  }

  /** What it returns is a critical path: no chain of succeeded tasks takes longer, and it runs
      from a task with no succeeded dependency to one with no succeeded dependent. */
  lemma ReturnsLongest(t: Trace, order: seq<Id>, path: seq<Id>)
    requires Wellformed(t) && Returns(t, order, path) && path != []
    ensures Longest(t, path) && Total(t, path) == Best(t, Last(path))
    ensures IsSource(t, path[0]) && IsSink(t, Last(path))
  {
    StepsTotal(t, path);
    SourceBest(t, path[0]);
    assert Last(path) in Sinks(t);
    forall n | Ok(t, n) && IsSink(t, n) ensures exists c :: Optimal(t, n, c) {
      BestIsOptimal(t, n);
    }
    forall n, c | Ok(t, n) && IsSink(t, n) && Optimal(t, n, c) ensures c <= Total(t, path) {
      assert n in Sinks(t);
      BestIsOptimal(t, n);
      OptimalUnique(t, n, c, Best(t, n));
    }
    BestAtSinksIsLongest(t, path);
  }

  /** Nothing if nothing succeeded; else a chain of succeeded tasks than which none takes longer,
      from a task with no succeeded dependency to one with no succeeded dependent. */
  ghost predicate IsCritical(spans: map<Id, Span>, g: Graph, path: seq<Id>) {
    && (path == [] <==> forall n :: !HasSucceeded(spans, n))
    && (path != [] ==>
          && NoneTakesLonger(spans, g, path)
          && StartsAfresh(spans, g, path[0]) && EndsThere(spans, g, path[|path| - 1]))
  }

  lemma ReturnsCritical(t: Trace, order: seq<Id>, path: seq<Id>)
    requires Wellformed(t) && Returns(t, order, path)
    ensures IsCritical(t.spans, t.g, path)
  {
    assert forall n :: Ok(t, n) == HasSucceeded(t.spans, n);
    if path != [] {
      ReturnsLongest(t, order, path);
      ResultMeans(t, path);
    }
    hide Wellformed, Longest, IsSource, IsSink, NoneTakesLonger, StartsAfresh, EndsThere, EndsAt;
  }

  /** The critical path of a run, for any order in which the spans are visited.  The fallback
      endpoint is never used. */
  method FindCriticalPath(t: Trace, order: seq<Id>) returns (path: seq<Id>, ghost usedFallback: bool)
    requires Wellformed(t) && Visits(t, order)
    ensures Returns(t, order, path) && !usedFallback
    ensures IsCritical(t.spans, t.g, path)
  {
    var incoming := CountIncoming(t);
    var f := new PathFinder(t);
    var bestEnd := PickEnd(f, incoming, order);
    SinkOrNothing(t);
    usedFallback := false;
    if bestEnd == "" {
      assert forall n :: Ok(t, n) && IsSink(t, n) ==> n in Sinks(t);
      bestEnd := AnySucceeded(t);
      usedFallback := bestEnd != "";
    }
    if bestEnd == "" {
      hide *;
      ReturnsNothing(t, order);
      ReturnsCritical(t, order, []);
      return [], usedFallback;
    }
    FinishedCost(f.t, f.bestCost, f.bestPrev, bestEnd);
    var back := FollowBack(f, bestEnd);
    var chain := new Id[|back|](i requires 0 <= i < |back| => back[i]);
    assert chain[..] == back;
    ReverseInPlace(chain);
    path := chain[..];
    ReversedSteps(t, back);
    hide *;
    ReturnsTrail(t, order, path, bestEnd);
    ReturnsCritical(t, order, path);
  }

  lemma ReturnsNothing(t: Trace, order: seq<Id>)
    requires Wellformed(t) && forall n :: !Ok(t, n)
    ensures Returns(t, order, [])
  {
  }

  lemma ReturnsTrail(t: Trace, order: seq<Id>, path: seq<Id>, end: Id)
    requires Wellformed(t) && Ok(t, end) && EndsAt(t, order, Sinks(t), end)
    requires path != [] && Steps(t, path) && IsSource(t, path[0]) && Last(path) == end
    ensures Returns(t, order, path)
  {
  }

  /** If anything succeeded, some succeeded task is a sink. */
  lemma SinkOrNothing(t: Trace)
    requires Wellformed(t)
    ensures (forall n :: !Ok(t, n)) || exists n :: Ok(t, n) && IsSink(t, n)
  {
    if n :| Ok(t, n) {
      SoloChain(t, n);
      var longer := SinkAbove(t, [n]);
      assert Ok(t, Last(longer));
    }
  }
}
