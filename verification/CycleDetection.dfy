/** The three-colour depth-first search that rejects cyclic workflows.
    The recursion and the colour map are those of the engine; `path` and `rank` are ghost
    bookkeeping: the grey nodes in call order and the finishing number of each black node. */
module CycleDetection {
  import opened Graphs

  datatype Color = White | Grey | Black

  /** The engine's error names the edge at which the search met a grey node. */
  datatype Verdict = NoCycle | CycleAt(node: Id, dep: Id)

  /** Some cycle runs through the edge from a to b. */
  ghost predicate EdgeOnCycle(g: Graph, a: Id, b: Id) {
    exists p :: IsCycle(g, p) && p[0] == a && p[1] == b
  }

  /** Finishing numbers below `next`: finished nodes depend on earlier finished nodes only. */
  ghost predicate FinishOrder(g: Graph, rank: map<Id, nat>, next: nat) {
    && rank.Keys <= g.Keys
    && (forall n, d :: n in rank && Edge(g, n, d) ==> d in rank && rank[d] < rank[n])
    && (forall n :: n in rank ==> rank[n] < next)
  }

  lemma FinishNext(g: Graph, rank: map<Id, nat>, next: nat, node: Id)
    requires FinishOrder(g, rank, next) && node in g && node !in rank
    requires forall d :: d in g[node] ==> d in rank
    ensures FinishOrder(g, rank[node := next], next + 1)
  {
  }

  /** The grey nodes, outermost call first, form a walk; none of them is finished. */
  ghost predicate GreyPath(g: Graph, path: seq<Id>, rank: map<Id, nat>) {
    && (path != [] ==> Walk(g, path))
    && (forall n :: n in path ==> n in g && n !in rank)
  }

  lemma GreyPop(g: Graph, below: seq<Id>, node: Id, rank: map<Id, nat>, next: nat)
    requires GreyPath(g, below + [node], rank) && forall d :: d in g[node] ==> d in rank
    ensures node !in below && GreyPath(g, below, rank[node := next])
  {
    var path := below + [node];
    forall k | 0 <= k < |below| ensures below[k] != node {
      assert LinkAt(g, path, k + 1) && path[k] == below[k];
      assert path[k + 1] in path && path[k + 1] !in rank;
    }
    if below != [] {
      SliceWalk(g, path, 0, |below|);
      assert below == path[0..|below|];
    }
  }

  /** An edge from the newest grey node back to a grey node closes a cycle. */
  lemma GreyEdgeOnCycle(g: Graph, path: seq<Id>, dep: Id)
    requires Walk(g, path) && dep in path && Edge(g, path[|path| - 1], dep)
    ensures EdgeOnCycle(g, path[|path| - 1], dep)
  {
    var node := path[|path| - 1];
    var k :| 0 <= k < |path| && path[k] == dep;
    SliceWalk(g, path, k, |path|);
    assert LinkAt(g, [node, dep], 1) && WalkFromTo(g, [node, dep], node, dep);
    JoinWalks(g, [node, dep], path[k..|path|], node, dep, node);
    var c := [node, dep] + path[k..|path|][1..];
    assert IsCycle(g, c) && c[0] == node && c[1] == dep;
  }

  class Detector {
    const graph: Graph
    var color: map<Id, Color>
    ghost var path: seq<Id>
    ghost var rank: map<Id, nat>
    ghost var next: nat

    constructor (graph: Graph)
      requires Closed(graph)
      ensures Valid() && this.graph == graph && path == [] && rank == map[]
    {
      this.graph := graph;
      color := map[];
      path := [];
      rank := map[];
      next := 0;
    }

    /** A node that was never coloured is white. */
    function ColorOf(n: Id): Color
      reads this
    {
      if n in color then color[n] else White
    }

    ghost function Whites(): set<Id>
      reads this
    {
      set n | n in graph && ColorOf(n) == White
    }

    /** Grey nodes form a walk; finished nodes carry a rank and depend on finished nodes only. */
    ghost predicate Valid()
      reads this
    {
      && Closed(graph)
      && (forall n :: n in graph ==> (ColorOf(n) == Grey <==> n in path))
      && (forall n :: n in graph ==> (ColorOf(n) == Black <==> n in rank))
      && GreyPath(graph, path, rank)
      && FinishOrder(graph, rank, next)
    }

    /** Explores a white node.  Success finishes the node and everything below it without
        disturbing what was grey or finished; failure names an edge that lies on a cycle. */
    method Visit(node: Id) returns (v: Verdict)
      requires Valid() && node in graph && ColorOf(node) == White
      requires path != [] ==> Edge(graph, path[|path| - 1], node)
      modifies this
      ensures v.NoCycle? ==>
                && Valid() && path == old(path) && node in rank
                && old(rank).Keys <= rank.Keys && (forall n :: n in old(rank) ==> rank[n] == old(rank)[n])
                && Whites() <= old(Whites())
      ensures v.CycleAt? ==> EdgeOnCycle(graph, v.node, v.dep)
      decreases Whites()
    {
      hide LinkAt, FinishOrder, IsCycle;
      color := color[node := Grey];
      ghost var before := path;
      if path != [] { ExtendWalk(graph, path, node); }
      path := path + [node];
      assert node !in Whites();
      var deps := graph[node];
      var i := 0;
      while i < |deps|
        invariant 0 <= i <= |deps|
        invariant Valid() && path == before + [node]
        invariant old(rank).Keys <= rank.Keys && forall n :: n in old(rank) ==> rank[n] == old(rank)[n]
        invariant Whites() <= old(Whites()) - {node}
        invariant forall k :: 0 <= k < i ==> deps[k] in rank
      {
        var dep := deps[i];
        assert Edge(graph, node, dep);
        if ColorOf(dep) == Grey {
          GreyEdgeOnCycle(graph, path, dep);
          return CycleAt(node, dep);
        }
        if ColorOf(dep) == White {
          var r := Visit(dep);
          if r.CycleAt? {
            return r;
          }
        }
        i := i + 1;
      }
      Finish(node, before);
      v := NoCycle;
    }

    /** Colours the top of the grey path black and gives it the next finishing number. */
    method Finish(node: Id, ghost below: seq<Id>)
      requires Valid() && path == below + [node] && node in graph
      requires forall d :: d in graph[node] ==> d in rank
      modifies this
      ensures Valid() && path == below && rank == old(rank)[node := old(next)]
      ensures Whites() == old(Whites())
    {
      hide LinkAt, Walk;
      assert node in path by { assert path[|below|] == node; }
      GreyPop(graph, below, node, rank, next);
      FinishNext(graph, rank, next, node);
      assert forall n :: n in path <==> n in below || n == node;
      hide GreyPath, FinishOrder, Closed;
      color := color[node := Black];
      path := below;
      rank := rank[node := next];
      next := next + 1;
    }
  }

  /** The search over every node, in whatever order the map iteration delivers them.
      It succeeds exactly on acyclic graphs, and then leaves a topological rank; an error
      names an edge of a real cycle. */
  method DetectCycle(graph: Graph) returns (v: Verdict, ghost rank: map<Id, nat>)
    requires Closed(graph)
    ensures v.NoCycle? <==> Acyclic(graph)
    ensures v.NoCycle? ==> IsRank(graph, rank)
    ensures v.CycleAt? ==> EdgeOnCycle(graph, v.node, v.dep)
  {
    var d := new Detector(graph);
    var todo := graph.Keys;
    while todo != {}
      invariant d.Valid() && d.graph == graph && d.path == [] && fresh(d)
      invariant todo <= graph.Keys && forall n :: n in graph.Keys - todo ==> n in d.rank
      decreases todo
    {
      var id :| id in todo;
      if d.ColorOf(id) == White {
        v := d.Visit(id);
        if v.CycleAt? {
          rank := map[];
          return;
        }
      }
      todo := todo - {id};
    }
    rank := d.rank;
    assert IsRank(graph, rank);
    RankMeansAcyclic(graph, rank);
    v := NoCycle;
  }
}
