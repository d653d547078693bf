/** Dependency graphs of workflows: walks along dependency edges, cycles, ranks, and the
    equivalence of "no cycle" with "a rank exists".
    An edge leads from a task to one of the tasks named in its depends_on list.  The list may
    repeat an entry; walks do not care. */
module Graphs {

  type Id = string
  type Graph = map<Id, seq<Id>>

  /** Every dependency is itself a node. */
  ghost predicate Closed(g: Graph) {
    forall n, d :: n in g && d in g[n] ==> d in g
  }

  ghost predicate Edge(g: Graph, a: Id, b: Id) {
    a in g && b in g && b in g[a]
  }

  ghost predicate LinkAt(g: Graph, p: seq<Id>, i: int) {
    0 < i < |p| && Edge(g, p[i - 1], p[i])
  }

  /** A non-empty list of nodes, each depending on the next. */
  ghost predicate Walk(g: Graph, p: seq<Id>) {
    && |p| > 0
    && (forall i :: 0 <= i < |p| ==> p[i] in g)
    && (forall i :: 0 < i < |p| ==> LinkAt(g, p, i))
  }

  ghost predicate WalkFromTo(g: Graph, p: seq<Id>, a: Id, b: Id) {
    Walk(g, p) && p[0] == a && p[|p| - 1] == b
  }

  /** A closed walk with at least one edge. */
  ghost predicate IsCycle(g: Graph, p: seq<Id>) {
    Walk(g, p) && |p| >= 2 && p[0] == p[|p| - 1]
  }

  ghost predicate Acyclic(g: Graph) {
    forall p :: !IsCycle(g, p)
  }

  /** `a` depends on `b` through one or more edges: `a` is a strict descendant of `b`. */
  ghost predicate DependsOn(g: Graph, a: Id, b: Id) {
    exists p :: WalkFromTo(g, p, a, b) && |p| >= 2
  }

  /** A topological rank: dependencies come strictly earlier. */
  ghost predicate IsRank(g: Graph, r: map<Id, nat>) {
    g.Keys <= r.Keys && forall n, d :: Edge(g, n, d) ==> r[d] < r[n]
  }

  // ---------- walks ----------

  lemma JoinWalks(g: Graph, p: seq<Id>, q: seq<Id>, a: Id, b: Id, c: Id)
    requires WalkFromTo(g, p, a, b) && WalkFromTo(g, q, b, c)
    ensures WalkFromTo(g, p + q[1..], a, c) && |p + q[1..]| == |p| + |q| - 1
  {
    var w := p + q[1..];
    forall i | 0 < i < |w| ensures LinkAt(g, w, i) {
      if i < |p| {
        assert LinkAt(g, p, i);
      } else {
        assert LinkAt(g, q, i - |p| + 1);
      }
    }
  }

  lemma SliceWalk(g: Graph, p: seq<Id>, lo: int, hi: int)
    requires Walk(g, p) && 0 <= lo < hi <= |p|
    ensures WalkFromTo(g, p[lo..hi], p[lo], p[hi - 1])
  {
    var w := p[lo..hi];
    forall i | 0 < i < |w| ensures LinkAt(g, w, i) {
      assert LinkAt(g, p, lo + i);
    }
  }

  lemma ExtendWalk(g: Graph, p: seq<Id>, d: Id)
    requires Walk(g, p) && Edge(g, p[|p| - 1], d)
    ensures WalkFromTo(g, p + [d], p[0], d)
  {
    var w := p + [d];
    forall i | 0 < i < |w| ensures LinkAt(g, w, i) {
      if i < |p| { assert LinkAt(g, p, i); }
    }
  }

  lemma EdgeDepends(g: Graph, a: Id, b: Id)
    requires Edge(g, a, b)
    ensures DependsOn(g, a, b)
  {
    assert LinkAt(g, [a, b], 1) && WalkFromTo(g, [a, b], a, b);
  }

  lemma DependsTransitive(g: Graph, a: Id, b: Id, c: Id)
    requires DependsOn(g, a, b) && DependsOn(g, b, c)
    ensures DependsOn(g, a, c)
  {
    var p :| WalkFromTo(g, p, a, b) && |p| >= 2;
    var q :| WalkFromTo(g, q, b, c) && |q| >= 2;
    JoinWalks(g, p, q, a, b, c);
  }

  /** A strict dependency is an edge, or an edge followed by a strict dependency. */
  lemma DependsFirstEdge(g: Graph, a: Id, c: Id) returns (b: Id)
    requires DependsOn(g, a, c)
    ensures Edge(g, a, b) && (b == c || DependsOn(g, b, c))
  {
    var p :| WalkFromTo(g, p, a, c) && |p| >= 2;
    b := p[1];
    assert LinkAt(g, p, 1);
    SliceWalk(g, p, 1, |p|);
    if |p| > 2 {
      assert WalkFromTo(g, p[1..|p|], b, c) && |p[1..|p|]| >= 2;
    }
  }

  /** A set of nodes closed under direct dependencies is closed under strict dependencies. */
  lemma {:induction false} ClosedUnderDepends(g: Graph, S: set<Id>, a: Id, b: Id, p: seq<Id>)
    requires forall n, d :: n in S && Edge(g, n, d) ==> d in S
    requires a in S && WalkFromTo(g, p, a, b)
    ensures b in S
    decreases |p|
  {
    if |p| > 1 {
      assert LinkAt(g, p, 1);
      SliceWalk(g, p, 1, |p|);
      ClosedUnderDepends(g, S, p[1], b, p[1..|p|]);
    }
  }

  // ---------- ranks ----------

  /** Each edge of a walk lowers the rank by at least one. */
  lemma {:induction false} RankFallsAlongWalk(g: Graph, r: map<Id, nat>, p: seq<Id>)
    requires IsRank(g, r) && Walk(g, p)
    ensures r[p[|p| - 1]] + |p| - 1 <= r[p[0]]
    decreases |p|
  {
    if |p| > 1 {
      assert LinkAt(g, p, 1);
      SliceWalk(g, p, 1, |p|);
      RankFallsAlongWalk(g, r, p[1..|p|]);
    }
  }

  lemma RankMeansAcyclic(g: Graph, r: map<Id, nat>)
    requires IsRank(g, r)
    ensures Acyclic(g)
  {
    forall p | IsCycle(g, p) ensures false {
      RankFallsAlongWalk(g, r, p);
    }
  }

  lemma {:induction false} Pigeonhole(p: seq<Id>, S: set<Id>) returns (i: int, j: int)
    requires |p| > |S| && forall k :: 0 <= k < |p| ==> p[k] in S
    ensures 0 <= i < j < |p| && p[i] == p[j]
    decreases |p|
  {
    var last := |p| - 1;
    if k :| 0 <= k < last && p[k] == p[last] {
      i, j := k, last;
    } else {
      assert p[last] in S;
      i, j := Pigeonhole(p[..last], S - {p[last]});
    }
  }

  ghost predicate DependsInside(g: Graph, S: set<Id>, n: Id) {
    exists d :: d in S && Edge(g, n, d)
  }

  /** If every node of S has a dependency inside S, S holds walks of any length. */
  lemma {:induction false} WalkInside(g: Graph, S: set<Id>, k: nat) returns (p: seq<Id>)
    requires S != {} && S <= g.Keys
    requires forall n :: n in S ==> DependsInside(g, S, n)
    ensures |p| == k + 1 && Walk(g, p) && forall i :: 0 <= i < |p| ==> p[i] in S
    decreases k
  {
    hide LinkAt, Edge;
    if k == 0 {
      var n :| n in S;
      p := [n];
    } else {
      var q := WalkInside(g, S, k - 1);
      var d :| d in S && Edge(g, q[|q| - 1], d);
      ExtendWalk(g, q, d);
      p := q + [d];
    }
  }

  /** If every node of S has a dependency inside S, some walk returns to its start. */
  lemma CycleInside(g: Graph, S: set<Id>)
    requires S != {} && S <= g.Keys && forall n :: n in S ==> DependsInside(g, S, n)
    ensures exists p :: IsCycle(g, p)
  {
    hide LinkAt, Edge;
    var p := WalkInside(g, S, |S|);
    var i, j := Pigeonhole(p, S);
    SliceWalk(g, p, i, j + 1);
    assert IsCycle(g, p[i..j + 1]);
  }

  /** A non-empty set of nodes of an acyclic graph has a node that depends on none of them. */
  lemma BottomExists(g: Graph, S: set<Id>) returns (n: Id)
    requires Acyclic(g) && S != {} && S <= g.Keys
    ensures n in S && !DependsInside(g, S, n)
  {
    if forall m :: m in S ==> DependsInside(g, S, m) {
      CycleInside(g, S);
    }
    n :| n in S && !DependsInside(g, S, n);
  }

  ghost predicate IsRankOn(g: Graph, S: set<Id>, r: map<Id, nat>) {
    r.Keys == S && forall n, d :: n in S && d in S && Edge(g, n, d) ==> r[d] < r[n]
  }

  lemma {:induction false} RankOn(g: Graph, S: set<Id>) returns (r: map<Id, nat>)
    requires Acyclic(g) && S <= g.Keys
    ensures IsRankOn(g, S, r)
    decreases |S|
  {
    if S == {} {
      r := map[];
    } else {
      var n := BottomExists(g, S);
      var q := RankOn(g, S - {n});
      r := map x | x in S :: if x == n then 0 else q[x] + 1;
    }
  }

  /** A graph has a topological rank exactly when no walk returns to its start. */
  lemma AcyclicIffRanked(g: Graph)
    ensures Acyclic(g) <==> exists r :: IsRank(g, r)
  {
    if Acyclic(g) {
      var r := RankOn(g, g.Keys);
      assert IsRank(g, r);
    }
    if r :| IsRank(g, r) {
      RankMeansAcyclic(g, r);
    }
  }

  lemma NoSelfDependency(g: Graph, a: Id)
    requires Acyclic(g)
    ensures !DependsOn(g, a, a)
  {
    if DependsOn(g, a, a) {
      var p :| WalkFromTo(g, p, a, a) && |p| >= 2;
      assert IsCycle(g, p);
    }
  }
}
