/** The Python engine's critical path.
    It starts from zero instead of -1, so zero-cost dependencies leave no back pointer, and it
    takes the first task of greatest cost as the endpoint, sink or not. */
module CriticalPathPython {
  import opened Graphs
  import opened Spans
  import opened Values
  import opened CriticalPath
  import Go = CriticalPathGo

  /** Everything below the task is free: its succeeded dependencies, if any, cost nothing. */
  ghost predicate FreeBelow(t: Trace, n: Id)
    requires Wellformed(t)
  {
    forall d :: Link(t, d, n) ==> Best(t, d) <= 0
  }

  /** A memo entry is the best cost; its back pointer is the first best dependency if that one
      costs anything, and otherwise there is none. */
  ghost predicate Entry(t: Trace, bestCost: map<Id, int>, bestPrev: map<Id, Option<Id>>, n: Id)
    requires Wellformed(t)
  {
    && n in bestCost && n in bestPrev && Ok(t, n) && bestCost[n] == Best(t, n)
    && match bestPrev[n]
       case None => FreeBelow(t, n)
       case Some(p) => Ok(t, p) && CameFrom(t, n, p) && Best(t, p) > 0 && p in bestCost
  }

  ghost predicate AllEntries(t: Trace, bestCost: map<Id, int>, bestPrev: map<Id, Option<Id>>)
    requires Wellformed(t)
  {
    forall n {:trigger Entry(t, bestCost, bestPrev, n)} :: n in bestCost ==> Entry(t, bestCost, bestPrev, n)
  }

  /** The first best dependency among the first i, if it costs more than zero. */
  ghost predicate BestOf(t: Trace, node: Id, i: nat, prevBest: int, prevNode: Option<Id>)
    requires Wellformed(t)
  {
    && node in t.g && i <= |t.g[node]|
    && match prevNode
       case None => prevBest == 0 && forall k :: 0 <= k < i && Ok(t, t.g[node][k]) ==> Best(t, t.g[node][k]) <= 0
       case Some(p) => prevBest > 0 && exists k :: FirstBest(t, node, i, k) && t.g[node][k] == p && prevBest == Best(t, p)
  }

  lemma BestNext(t: Trace, node: Id, i: nat, prevBest: int, prevNode: Option<Id>)
    requires Wellformed(t) && BestOf(t, node, i, prevBest, prevNode) && i < |t.g[node]|
    ensures var dep := t.g[node][i];
            && (!Ok(t, dep) ==> BestOf(t, node, i + 1, prevBest, prevNode))
            && (Ok(t, dep) ==> if Best(t, dep) > prevBest then BestOf(t, node, i + 1, Best(t, dep), Some(dep))
                               else BestOf(t, node, i + 1, prevBest, prevNode))
  {
    var dep := t.g[node][i];
    if Ok(t, dep) { assert dep in t.g; }
    hide Best, Acyclic, Closed;
    if prevNode.None? {
      if Ok(t, dep) && Best(t, dep) > 0 { assert FirstBest(t, node, i + 1, i); }
    } else {
      var k :| FirstBest(t, node, i, k) && t.g[node][k] == prevNode.value && prevBest == Best(t, prevNode.value);
      if Ok(t, dep) && Best(t, dep) > prevBest {
        assert FirstBest(t, node, i + 1, i);
      } else {
        assert FirstBest(t, node, i + 1, k);
      }
    }
  }

  lemma BestDecides(t: Trace, node: Id, prevBest: int, prevNode: Option<Id>)
    requires Wellformed(t) && Ok(t, node) && BestOf(t, node, |t.g[node]|, prevBest, prevNode)
    ensures Best(t, node) == Own(t, node) + prevBest
    ensures prevNode.None? ==> FreeBelow(t, node)
    ensures prevNode.Some? ==> Ok(t, prevNode.value) && CameFrom(t, node, prevNode.value) && Best(t, prevNode.value) == prevBest > 0
  {
    hide Best, Acyclic, Closed;
    if prevNode.None? {
      forall d | Link(t, d, node) ensures Best(t, d) <= 0 {
        var k :| 0 <= k < |t.g[node]| && t.g[node][k] == d;
      }
      SourceBest(t, node);
    } else {
      var k :| FirstBest(t, node, |t.g[node]|, k) && t.g[node][k] == prevNode.value && prevBest == Best(t, prevNode.value);
      CameFromLink(t, node, prevNode.value);
    }
  }

  lemma EntryCost(t: Trace, bestCost: map<Id, int>, bestPrev: map<Id, Option<Id>>, n: Id)
    requires Wellformed(t) && AllEntries(t, bestCost, bestPrev) && n in bestCost
    ensures Ok(t, n) && bestCost[n] == Best(t, n)
  {
    assert Entry(t, bestCost, bestPrev, n);
  }

  lemma AddEntry(t: Trace, bestCost: map<Id, int>, bestPrev: map<Id, Option<Id>>, node: Id, prevBest: int, prevNode: Option<Id>)
    requires Wellformed(t) && AllEntries(t, bestCost, bestPrev) && Ok(t, node) && node !in bestCost
    requires BestOf(t, node, |t.g[node]|, prevBest, prevNode) && (prevNode.Some? ==> prevNode.value in bestCost)
    ensures AllEntries(t, bestCost[node := Own(t, node) + prevBest], bestPrev[node := prevNode])
    ensures Best(t, node) == Own(t, node) + prevBest
  {
    BestDecides(t, node, prevBest, prevNode);
    hide Best, Wellformed, Own, FreeBelow, CameFrom;
    var costs, prevs := bestCost[node := Own(t, node) + prevBest], bestPrev[node := prevNode];
    forall n | n in costs ensures Entry(t, costs, prevs, n) {
      if n != node { assert Entry(t, bestCost, bestPrev, n); }
    }
  }

  class PathFinder {
    const t: Trace
    ghost const r: map<Id, nat>
    var bestCost: map<Id, int>
    var bestPrev: map<Id, Option<Id>>

    constructor (t: Trace)
      requires Wellformed(t)
      ensures Valid() && this.t == t && bestCost == map[]
    {
      AcyclicIffRanked(t.g);
      ghost var rank: map<Id, nat> :| IsRank(t.g, rank);
      this.t := t;
      this.r := rank;
      bestCost, bestPrev := map[], map[];
    }

    ghost predicate Valid()
      reads this
    {
      Wellformed(t) && IsRank(t.g, r) && AllEntries(t, bestCost, bestPrev)
    }

    /** The greatest total of a chain ending at `node`, with every entry on the way remembered. */
    method Cost(node: Id) returns (c: int)
      requires Valid() && Ok(t, node)
      modifies this
      ensures Valid() && old(bestCost).Keys <= bestCost.Keys
      ensures forall n :: n in bestCost ==> n in r && (r[n] > r[node] ==> n in old(bestCost))
      ensures node in bestCost && c == Best(t, node)
      decreases r[node]
    {
      hide AllEntries, BestOf, Acyclic, Closed, Best;
      EntriesInGraph();
      if node in bestCost {
        EntryCost(t, bestCost, bestPrev, node);
        return bestCost[node];
      }
      var own := t.spans[node].durationMs;
      var prevBest, prevNode: Option<Id> := 0, None;
      var deps := t.g[node];
      StartBest(t, node);
      var i := 0;
      while i < |deps|
        invariant 0 <= i <= |deps|
        invariant Valid() && old(bestCost).Keys <= bestCost.Keys
        invariant forall n :: n in bestCost ==> n in r && (r[n] >= r[node] ==> n in old(bestCost))
        invariant BestOf(t, node, i, prevBest, prevNode)
        invariant prevNode.Some? ==> prevNode.value in bestCost
      {
        var dep := deps[i];
        BestNext(t, node, i, prevBest, prevNode);
        if Ok(t, dep) {
          EdgeLowersRank(dep, node);
          var cost := Cost(dep);
          EntriesInGraph();
          if cost > prevBest {
            prevBest, prevNode := cost, Some(dep);
          }
        }
        i := i + 1;
      }
      AddEntry(t, bestCost, bestPrev, node, prevBest, prevNode);
      bestCost := bestCost[node := own + prevBest];
      bestPrev := bestPrev[node := prevNode];
      c := bestCost[node];
    }

    lemma EdgeLowersRank(dep: Id, node: Id)
      requires Valid() && node in t.g && dep in t.g[node]
      ensures dep in t.g && r[dep] < r[node]
    {
      assert Edge(t.g, node, dep);
    }

    lemma EntriesInGraph()
      requires Valid()
      ensures forall n :: n in bestCost ==> n in r
    {
      forall n | n in bestCost ensures n in r { EntryCost(t, bestCost, bestPrev, n); }
    }
  }

  lemma StartBest(t: Trace, node: Id)
    requires Wellformed(t) && node in t.g
    ensures BestOf(t, node, 0, 0, None)
  {
  }

  /** The succeeded tasks among the first i of `order`, in that order. */
  function OkAmong(t: Trace, order: seq<Id>, i: nat): seq<Id>
    requires i <= |order|
  {
    if i == 0 then [] else OkAmong(t, order, i - 1) + if Ok(t, order[i - 1]) then [order[i - 1]] else []
  }

  /** The succeeded tasks, in the order in which the dictionary holds the spans. */
  method SucceededList(t: Trace, order: seq<Id>) returns (ids: seq<Id>)
    ensures ids == OkAmong(t, order, |order|)
  {
    ids := [];
    for i := 0 to |order|
      invariant ids == OkAmong(t, order, i)
    {
      if Ok(t, order[i]) {
        ids := ids + [order[i]];
      }
    }
  }

  lemma {:induction false} OkAmongMembers(t: Trace, order: seq<Id>, i: nat)
    requires i <= |order|
    ensures forall n :: n in OkAmong(t, order, i) <==> n in order[..i] && Ok(t, n)
    decreases i
  {
    if i > 0 {
      OkAmongMembers(t, order, i - 1);
      assert order[..i] == order[..i - 1] + [order[i - 1]];
    }
  }

  /** The first task of greatest cost. */
  method MaxByCost(f: PathFinder, ids: seq<Id>) returns (end: Id)
    requires f.Valid() && ids != [] && forall n :: n in ids ==> Ok(f.t, n)
    modifies f
    ensures f.Valid() && end in ids && end in f.bestCost
    ensures exists i :: FirstMax(f.t, ids, i) && ids[i] == end
  {
    hide AllEntries, Wellformed, IsRank, Best;
    end := ids[0];
    var best := f.Cost(end);
    ghost var at := 0;
    for i := 1 to |ids|
      invariant f.Valid() && end in f.bestCost && 0 <= at < i && ids[at] == end && best == Best(f.t, end)
      invariant forall k :: 0 <= k < i ==> Best(f.t, ids[k]) <= best
      invariant forall k :: 0 <= k < at ==> Best(f.t, ids[k]) < best
    {
      var c := f.Cost(ids[i]);
      if c > best {
        best, end, at := c, ids[i], i;
      }
    }
    assert FirstMax(f.t, ids, at);
  }

  /** Position i holds the first of the listed tasks of greatest cost. */
  ghost predicate FirstMax(t: Trace, ids: seq<Id>, i: int)
    requires Wellformed(t) && forall n :: n in ids ==> Ok(t, n)
  {
    && 0 <= i < |ids|
    && (forall k :: 0 <= k < |ids| ==> Best(t, ids[k]) <= Best(t, ids[i]))
    && (forall k :: 0 <= k < i ==> Best(t, ids[k]) < Best(t, ids[i]))
  }

  /** The first of greatest cost among the succeeded tasks of an order, found in the order itself. */
  lemma {:induction false} FirstMaxInOrder(t: Trace, order: seq<Id>, n: nat, i: int) returns (at: nat)
    requires Wellformed(t) && n <= |order| && (forall x :: x in OkAmong(t, order, n) ==> Ok(t, x))
    requires FirstMax(t, OkAmong(t, order, n), i)
    ensures at < n && Ok(t, order[at]) && order[at] == OkAmong(t, order, n)[i]
    ensures forall k :: 0 <= k < n && Ok(t, order[k]) ==> Best(t, order[k]) <= Best(t, order[at])
    ensures forall k :: 0 <= k < at && Ok(t, order[k]) ==> Best(t, order[k]) < Best(t, order[at])
    decreases n
  {
    hide Best, Wellformed;
    var ids, front := OkAmong(t, order, n), OkAmong(t, order, n - 1);
    OkAmongMembers(t, order, n);
    OkAmongMembers(t, order, n - 1);
    if i < |front| {
      assert forall k :: 0 <= k < |front| ==> front[k] == ids[k];
      at := FirstMaxInOrder(t, order, n - 1, i);
      if Ok(t, order[n - 1]) { assert ids[|front|] == order[n - 1]; }
    } else {
      at := n - 1;
      forall k | 0 <= k < at && Ok(t, order[k]) ensures Best(t, order[k]) < Best(t, order[at]) {
        assert order[k] in order[..n - 1];
        var j :| 0 <= j < |front| && front[j] == order[k];
        assert ids[j] == order[k];
      }
    }
  }

  lemma EndFound(t: Trace, order: seq<Id>, end: Id)
    requires Wellformed(t) && Visits(t, order) && (forall n :: n in OkAmong(t, order, |order|) ==> Ok(t, n))
    requires exists i :: FirstMax(t, OkAmong(t, order, |order|), i) && OkAmong(t, order, |order|)[i] == end
    ensures Ok(t, end) && EndsAt(t, order, AllOk(t), end)
  {
    var i :| FirstMax(t, OkAmong(t, order, |order|), i) && OkAmong(t, order, |order|)[i] == end;
    var at := FirstMaxInOrder(t, order, |order|, i);
    hide Best, Wellformed, OkAmong;
    forall n | n in AllOk(t) && Ok(t, n) ensures Best(t, n) <= Best(t, order[at]) {
      var k :| 0 <= k < |order| && order[k] == n;
    }
    assert FirstTop(t, order, AllOk(t), at);
  }

  /** The list of back pointers, none of which leads to a task that costs nothing. */
  ghost predicate PaidSteps(t: Trace, back: seq<Id>)
    requires Wellformed(t)
  {
    forall i :: 0 < i < |back| ==> Ok(t, back[i]) && Best(t, back[i]) > 0
  }

  method FollowBack(f: PathFinder, end: Id) returns (back: seq<Id>)
    requires f.Valid() && end in f.bestCost
    ensures back != [] && BackSteps(f.t, back) && back[0] == end
    ensures PaidSteps(f.t, back) && FreeBelow(f.t, Last(back))
  {
    hide Best, Wellformed, CameFrom, FreeBelow;
    back := [];
    f.EntriesInGraph();
    var node: Option<Id> := Some(end);
    while node.Some?
      invariant BackSteps(f.t, back) && PaidSteps(f.t, back)
      invariant back == [] ==> node == Some(end)
      invariant back != [] ==> back[0] == end
      invariant node.Some? ==> node.value in f.r && node.value in f.bestCost
      invariant back != [] && node.Some? ==>
                  Ok(f.t, node.value) && CameFrom(f.t, Last(back), node.value) && Best(f.t, node.value) > 0
      invariant node.None? ==> back != [] && FreeBelow(f.t, Last(back))
      decreases if node.None? then 0 else f.r[node.value] + 1
    {
      var n := node.value;
      assert Entry(f.t, f.bestCost, f.bestPrev, n);
      back := back + [n];
      node := f.bestPrev[n];
      if node.Some? { Go.CameFromEdge(f.t, n, node.value); }
    }
  }

  /** The way back as far as it costs anything: what the Python engine lists. */
  ghost predicate PaidTrail(t: Trace, trail: seq<Id>)
    requires Wellformed(t)
  {
    && Steps(t, trail) && FreeBelow(t, trail[0])
    && forall i :: 0 <= i < |trail| - 1 ==> Best(t, trail[i]) > 0
  }

  /** What the engine returns when the dictionary holds the spans in a given order: the paid trail
      to the first task of greatest cost, and nothing only when nothing succeeded. */
  ghost predicate Returns(t: Trace, order: seq<Id>, path: seq<Id>)
    requires Wellformed(t)
  {
    if exists n :: Ok(t, n) then PaidTrail(t, path) && EndsAt(t, order, AllOk(t), Last(path)) else path == []
  }

  /** What it returns is a chain of succeeded tasks than which none takes longer. */
  lemma ReturnsLongest(t: Trace, order: seq<Id>, path: seq<Id>)
    requires Wellformed(t) && Returns(t, order, path) && path != []
    ensures Longest(t, path) && Total(t, path) == Best(t, Last(path))
  {
    StepsTotal(t, path);
    SourceBest(t, path[0]);
    forall other | IsChain(t, other) ensures Total(t, other) <= Total(t, path) {
      assert Ok(t, Last(other)) && ChainTo(t, other, Last(other)) && Last(other) in AllOk(t);
      BestIsOptimal(t, Last(other));
    }
  }

  lemma ReversedPaid(t: Trace, back: seq<Id>)
    requires Wellformed(t) && BackSteps(t, back) && back != [] && PaidSteps(t, back) && FreeBelow(t, Last(back))
    ensures PaidTrail(t, Reversed(back)) && Last(Reversed(back)) == back[0]
  {
    hide Best, Wellformed, FreeBelow, CameFrom;
    ReversedSteps(t, back);
    var trail := Reversed(back);
    forall i | 0 <= i < |trail| - 1 ensures Best(t, trail[i]) > 0 {
      assert trail[i] == back[|back| - 1 - i];
    }
  }

  /** Nothing if nothing succeeded; else a chain of succeeded tasks than which none takes longer. */
  ghost predicate IsCritical(spans: map<Id, Span>, g: Graph, path: seq<Id>) {
    && (path == [] <==> forall n :: !HasSucceeded(spans, n))
    && (path != [] ==> NoneTakesLonger(spans, g, path))
  }

  lemma ReturnsCritical(t: Trace, order: seq<Id>, path: seq<Id>)
    requires Wellformed(t) && Returns(t, order, path)
    ensures IsCritical(t.spans, t.g, path)
  {
    assert forall n :: Ok(t, n) == HasSucceeded(t.spans, n);
    if path != [] {
      ReturnsLongest(t, order, path);
      LongestMeans(t, path);
    }
    hide Wellformed, Longest, NoneTakesLonger, EndsAt;
  }

  /** The critical path for any order of the spans. */
  method ComputeCriticalPath(t: Trace, order: seq<Id>) returns (path: seq<Id>)
    requires Wellformed(t) && Visits(t, order)
    ensures Returns(t, order, path)
    ensures IsCritical(t.spans, t.g, path)
  {
    var succeeded := SucceededList(t, order);
    OkAmongMembers(t, order, |order|);
    assert order[..|order|] == order;
    if succeeded == [] {
      hide *;
      ReturnsNothing(t, order);
      ReturnsCritical(t, order, []);
      return [];
    }
    assert succeeded[0] in succeeded;
    var f := new PathFinder(t);
    var end := MaxByCost(f, succeeded);
    EndFound(t, order, end);
    var back := FollowBack(f, end);
    var chain := new Id[|back|](i requires 0 <= i < |back| => back[i]);
    assert chain[..] == back;
    ReverseInPlace(chain);
    path := chain[..];
    ReversedPaid(t, back);
    hide *;
    ReturnsPaid(t, order, path, end);
    ReturnsCritical(t, order, path);
  }

  lemma ReturnsNothing(t: Trace, order: seq<Id>)
    requires Wellformed(t) && forall n :: !Ok(t, n)
    ensures Returns(t, order, [])
  {
  }

  lemma ReturnsPaid(t: Trace, order: seq<Id>, path: seq<Id>, end: Id)
    requires Wellformed(t) && Ok(t, end) && EndsAt(t, order, AllOk(t), end)
    requires PaidTrail(t, path) && Last(path) == end
    ensures Returns(t, order, path) && path != []
  {
  }
}
