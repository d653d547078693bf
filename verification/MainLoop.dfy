/** The bookkeeping of the Go scheduler: the maps, queue and counters its main loop updates.
    Each method is one step of the loop and is proved to be one action of the transition system. */
module MainLoop {
  import opened Values
  import opened Graphs
  import opened Workflows
  import opened Spans
  import opened Scheduling
  import opened SchedulerInvariant

  function FatalIds(wf: Workflow): set<Id> {
    var m := TaskMap(wf.tasks);
    set id | id in m && m[id].EffectiveOnError(wf.defaultOnError) == "fail_fast"
  }

  lemma FatalIdsExact(wf: Workflow, id: Id)
    requires UniqueIds(wf.tasks)
    ensures id in FatalIds(wf) <==> Fatal(wf, id)
  {
    if id in TaskMap(wf.tasks) {
      TaskMapKeys(wf.tasks);
      TaskMapIsTask(wf.tasks, id);
    }
    forall t | t in wf.tasks && t.id == id ensures id in TaskMap(wf.tasks) && TaskMap(wf.tasks)[id] == t {
      var i :| 0 <= i < |wf.tasks| && wf.tasks[i] == t;
      TaskMapFinds(wf.tasks, i);
    }
    hide TaskMap, UniqueIds;
  }

  function ConfigOf(wf: Workflow): Config {
    Config(DependencyGraph(wf.tasks), FatalIds(wf))
  }

  lemma ConfigSound(wf: Workflow)
    requires WellFormed(wf)
    ensures Sound(ConfigOf(wf))
  {
    GraphClosed(wf);
  }

  // ---------- dependents ----------

  /** The dependents of a task; a missing entry is an empty list. */
  function ChildrenOf(children: map<Id, seq<Id>>, d: Id): seq<Id> {
    if d in children then children[d] else []
  }

  /** A task is listed under a dependency as often as it names it. */
  ghost predicate ChildrenExact(g: Graph, children: map<Id, seq<Id>>) {
    forall d, k {:trigger Count(ChildrenOf(children, d), k)} ::
      Count(ChildrenOf(children, d), k) == if k in g then Count(g[k], d) else 0
  }

  lemma {:induction false} CountAppend(ds: seq<Id>, y: Id, x: Id)
    ensures Count(ds + [y], x) == Count(ds, x) + if x == y then 1 else 0
    decreases |ds|
  {
    if ds == [] {
      assert ds + [y] == [y] && [y][1..] == [];
    } else {
      CountAppend(ds[1..], y, x);
      assert (ds + [y])[1..] == ds[1..] + [y];
    }
  }

  lemma ChildIsDependent(g: Graph, children: map<Id, seq<Id>>, d: Id, k: Id)
    requires ChildrenExact(g, children)
    ensures k in ChildrenOf(children, d) <==> k in g && d in g[k]
  {
    CountPositive(ChildrenOf(children, d), k);
    if k in g { CountPositive(g[k], d); }
  }

  /** How often k lists d among the tasks handled so far. */
  ghost predicate ChildrenSoFar(tasks: seq<Task>, i: nat, j: nat, children: map<Id, seq<Id>>)
    requires i < |tasks| && j <= |tasks[i].dependsOn|
  {
    forall d, k {:trigger Count(ChildrenOf(children, d), k)} ::
      Count(ChildrenOf(children, d), k) ==
      if k == tasks[i].id then Count(tasks[i].dependsOn[..j], d)
      else if k in TaskMap(tasks[..i]) then Count(TaskMap(tasks[..i])[k].dependsOn, d) else 0
  }

  lemma AddChild(tasks: seq<Task>, i: nat, j: nat, children: map<Id, seq<Id>>)
    requires i < |tasks| && j < |tasks[i].dependsOn| && ChildrenSoFar(tasks, i, j, children)
    ensures var dep := tasks[i].dependsOn[j];
            ChildrenSoFar(tasks, i, j + 1, children[dep := ChildrenOf(children, dep) + [tasks[i].id]])
  {
    var dep, id := tasks[i].dependsOn[j], tasks[i].id;
    var later := children[dep := ChildrenOf(children, dep) + [id]];
    forall d, k
      ensures Count(ChildrenOf(later, d), k) ==
              if k == id then Count(tasks[i].dependsOn[..j + 1], d)
              else if k in TaskMap(tasks[..i]) then Count(TaskMap(tasks[..i])[k].dependsOn, d) else 0
    {
      CountAppend(ChildrenOf(children, dep), id, k);
      CountAppend(tasks[i].dependsOn[..j], dep, d);
      assert tasks[i].dependsOn[..j + 1] == tasks[i].dependsOn[..j] + [dep];
      assert Count(ChildrenOf(children, d), k) == Count(ChildrenOf(children, d), k);
    }
  }

  ghost predicate BooksSoFar(tasks: seq<Task>, i: nat, indeg: map<Id, int>, children: map<Id, seq<Id>>)
    requires i <= |tasks|
  {
    && indeg == (map id | id in TaskMap(tasks[..i]) :: |TaskMap(tasks[..i])[id].dependsOn|)
    && ChildrenExact(DependencyGraph(tasks[..i]), children)
  }

  lemma BooksStart(tasks: seq<Task>)
    ensures BooksSoFar(tasks, 0, map[], map[])
  {
    assert tasks[..0] == [];
  }

  lemma BooksOpen(tasks: seq<Task>, i: nat, indeg: map<Id, int>, children: map<Id, seq<Id>>)
    requires i < |tasks| && UniqueIds(tasks) && BooksSoFar(tasks, i, indeg, children)
    ensures ChildrenSoFar(tasks, i, 0, children)
  {
    PrefixStep(tasks, i);
  }

  lemma BooksClose(tasks: seq<Task>, i: nat, indeg: map<Id, int>, before: map<Id, seq<Id>>, children: map<Id, seq<Id>>)
    requires i < |tasks| && UniqueIds(tasks) && BooksSoFar(tasks, i, indeg, before)
    requires ChildrenSoFar(tasks, i, |tasks[i].dependsOn|, children)
    ensures BooksSoFar(tasks, i + 1, indeg[tasks[i].id := |tasks[i].dependsOn|], children)
  {
    PrefixStep(tasks, i);
    assert tasks[i].dependsOn[..|tasks[i].dependsOn|] == tasks[i].dependsOn;
  }

  lemma BooksDone(wf: Workflow, indeg: map<Id, int>, children: map<Id, seq<Id>>)
    requires BooksSoFar(wf.tasks, |wf.tasks|, indeg, children)
    ensures indeg == Init(ConfigOf(wf)).indeg && ChildrenExact(DependencyGraph(wf.tasks), children)
  {
    assert wf.tasks[..|wf.tasks|] == wf.tasks;
  }

  /** The counters and dependents of all tasks, filled task by task. */
  method BuildBookkeeping(wf: Workflow) returns (indeg: map<Id, int>, children: map<Id, seq<Id>>)
    requires UniqueIds(wf.tasks)
    ensures indeg == Init(ConfigOf(wf)).indeg
    ensures ChildrenExact(DependencyGraph(wf.tasks), children)
  {
    hide BooksSoFar, ChildrenSoFar;
    indeg, children := map[], map[];
    var tasks := wf.tasks;
    BooksStart(tasks);
    for i := 0 to |tasks|
      invariant BooksSoFar(tasks, i, indeg, children)
    {
      var t := tasks[i];
      ghost var before := children;
      BooksOpen(tasks, i, indeg, children);
      for j := 0 to |t.dependsOn|
        invariant ChildrenSoFar(tasks, i, j, children)
      {
        AddChild(tasks, i, j, children);
        var dep := t.dependsOn[j];
        children := children[dep := ChildrenOf(children, dep) + [t.id]];
      }
      BooksClose(tasks, i, indeg, before, children);
      indeg := indeg[t.id := |t.dependsOn|];
    }
    BooksDone(wf, indeg, children);
  }

  lemma PrefixStep(tasks: seq<Task>, i: nat)
    requires i < |tasks| && UniqueIds(tasks)
    ensures TaskMap(tasks[..i + 1]) == TaskMap(tasks[..i])[tasks[i].id := tasks[i]]
    ensures tasks[i].id !in TaskMap(tasks[..i])
  {
    assert tasks[..i + 1][..i] == tasks[..i];
    TaskMapKeys(tasks[..i]);
    assert forall k :: 0 <= k < i ==> tasks[..i][k].id == tasks[k].id;
  }

  // ---------- the queue ----------

  function Elements(q: seq<Id>): set<Id> {
    set x | x in q
  }

  ghost predicate NoRepeats(q: seq<Id>) {
    forall i, j :: 0 <= i < j < |q| ==> q[i] != q[j]
  }

  lemma AppendElement(q: seq<Id>, x: Id)
    ensures Elements(q + [x]) == Elements(q) + {x}
    ensures NoRepeats(q) && x !in q ==> NoRepeats(q + [x])
  {
    assert (q + [x])[|q|] == x;
    assert forall i :: 0 <= i < |q| ==> (q + [x])[i] == q[i];
  }

  lemma PopElement(q: seq<Id>)
    requires NoRepeats(q) && q != []
    ensures NoRepeats(q[1..]) && Elements(q[1..]) == Elements(q) - {q[0]}
  {
    assert forall i :: 0 <= i < |q[1..]| ==> q[1..][i] == q[i + 1];
    assert forall i :: 1 <= i < |q| ==> q[i] == q[1..][i - 1];
  }

  lemma AppendQueue(q: seq<Id>, r: seq<Id>)
    requires NoRepeats(q) && NoRepeats(r) && Elements(q) !! Elements(r)
    ensures NoRepeats(q + r) && Elements(q + r) == Elements(q) + Elements(r)
  {
    assert forall i :: 0 <= i < |q| ==> q[i] in Elements(q);
    assert forall i :: 0 <= i < |r| ==> r[i] in Elements(r);
  }

  /** Tasks without dependencies start out ready, in specification order. */
  method InitialReady(wf: Workflow, indeg: map<Id, int>) returns (ready: seq<Id>)
    requires UniqueIds(wf.tasks) && indeg == Init(ConfigOf(wf)).indeg
    ensures NoRepeats(ready) && Elements(ready) == Init(ConfigOf(wf)).ready
  {
    ready := [];
    for i := 0 to |wf.tasks|
      invariant NoRepeats(ready)
      invariant forall x :: x in ready <==> exists k :: 0 <= k < i && wf.tasks[k].id == x && wf.tasks[k].dependsOn == []
    {
      var t := wf.tasks[i];
      TaskMapFinds(wf.tasks, i);
      if indeg[t.id] == 0 {
        AppendElement(ready, t.id);
        ready := ready + [t.id];
      }
    }
    forall id ensures id in ready <==> id in Init(ConfigOf(wf)).ready {
      if id in TaskMap(wf.tasks) {
        TaskMapIsTask(wf.tasks, id);
        var k :| 0 <= k < |wf.tasks| && wf.tasks[k] == TaskMap(wf.tasks)[id];
        TaskMapKeys(wf.tasks);
      }
      if id in ready {
        var k :| 0 <= k < |wf.tasks| && wf.tasks[k].id == id && wf.tasks[k].dependsOn == [];
        TaskMapFinds(wf.tasks, k);
      }
    }
  }

  /** Counters after the first i entries of a dependents list have been handled, and the tasks
      queued because their counter reached zero. */
  ghost predicate ReleasedSoFar(before: map<Id, int>, cs: seq<Id>, i: nat, indeg: map<Id, int>, queue: seq<Id>)
    requires i <= |cs|
  {
    && indeg.Keys == before.Keys
    && (forall k :: k in before ==> indeg[k] == before[k] - Count(cs[..i], k))
    && (forall k :: k in queue <==> k in before && Count(cs[..i], k) > 0 && indeg[k] == 0)
    && NoRepeats(queue)
  }

  lemma CountNext(cs: seq<Id>, i: nat)
    requires i < |cs|
    ensures forall k :: Count(cs[..i + 1], k) == Count(cs[..i], k) + if k == cs[i] then 1 else 0
    ensures Count(cs[..i + 1], cs[i]) <= Count(cs, cs[i])
  {
    assert cs[..i + 1] == cs[..i] + [cs[i]];
    forall k ensures Count(cs[..i + 1], k) == Count(cs[..i], k) + if k == cs[i] then 1 else 0 {
      CountAppend(cs[..i], cs[i], k);
    }
    CountPrefix(cs, i + 1, cs[i]);
  }

  lemma ReleaseNext(before: map<Id, int>, cs: seq<Id>, i: nat, indeg: map<Id, int>, queue: seq<Id>)
    requires i < |cs| && ReleasedSoFar(before, cs, i, indeg, queue) && cs[i] in before
    requires before[cs[i]] >= Count(cs, cs[i])
    ensures var k := cs[i]; var later := indeg[k := indeg[k] - 1];
            ReleasedSoFar(before, cs, i + 1, later, if later[k] == 0 then queue + [k] else queue)
  {
    CountNext(cs, i);
    var c := cs[i];
    var a, b := cs[..i], cs[..i + 1];
    var later := indeg[c := indeg[c] - 1];
    AppendElement(queue, c);
    QueueAppend(queue, c);
    assert later[c] >= 0;
    assert c !in queue;
    hide Count, NoRepeats, Elements;
    assert later.Keys == before.Keys;
    forall k | k in before ensures later[k] == before[k] - Count(b, k) {
    }
  }

  lemma QueueAppend(queue: seq<Id>, c: Id)
    ensures forall k :: k in queue + [c] <==> k in queue || k == c
  {
  }

  lemma {:induction false} CountPrefix(cs: seq<Id>, i: nat, x: Id)
    requires i <= |cs|
    ensures Count(cs[..i], x) <= Count(cs, x)
    decreases |cs| - i
  {
    if i == |cs| {
      assert cs[..i] == cs;
    } else {
      CountPrefix(cs, i + 1, x);
      CountAppend(cs[..i], cs[i], x);
      assert cs[..i + 1] == cs[..i] + [cs[i]];
    }
  }

  /** Decrements the counter of every dependent, once per entry, and queues those that reach
      zero: each of them exactly once, on its last entry. */
  method ReleaseChildren(g: Graph, children: map<Id, seq<Id>>, before: map<Id, int>, id: Id)
    returns (indeg: map<Id, int>, queue: seq<Id>)
    requires ChildrenExact(g, children) && before.Keys == g.Keys
    requires forall k :: k in g ==> before[k] >= Count(g[k], id)
    ensures indeg == Released(g, before, id) && NoRepeats(queue) && Elements(queue) == NewlyReady(g, before, id)
  {
    var cs := ChildrenOf(children, id);
    indeg, queue := before, [];
    forall k | k in cs ensures k in before && before[k] >= Count(cs, k) {
      ChildIsDependent(g, children, id, k);
    }
    assert cs[..0] == [];
    var i := 0;
    while i < |cs|
      invariant 0 <= i <= |cs| && ReleasedSoFar(before, cs, i, indeg, queue)
    {
      ReleaseNext(before, cs, i, indeg, queue);
      hide ReleasedSoFar;
      var cid := cs[i];
      SameCounters(before, cs, i, indeg, queue);
      indeg := indeg[cid := indeg[cid] - 1];
      if indeg[cid] == 0 {
        queue := queue + [cid];
      }
      i := i + 1;
    }
    ReleaseDone(g, children, before, id, indeg, queue);
  }

  lemma SameCounters(before: map<Id, int>, cs: seq<Id>, i: nat, indeg: map<Id, int>, queue: seq<Id>)
    requires i <= |cs| && ReleasedSoFar(before, cs, i, indeg, queue)
    ensures indeg.Keys == before.Keys
  {
  }

  lemma ReleaseDone(g: Graph, children: map<Id, seq<Id>>, before: map<Id, int>, id: Id, indeg: map<Id, int>, queue: seq<Id>)
    requires ChildrenExact(g, children) && before.Keys == g.Keys
    requires var cs := ChildrenOf(children, id); ReleasedSoFar(before, cs, |cs|, indeg, queue)
    ensures indeg == Released(g, before, id) && NoRepeats(queue) && Elements(queue) == NewlyReady(g, before, id)
  {
    var cs := ChildrenOf(children, id);
    assert cs[..|cs|] == cs;
    forall k | k in g ensures indeg[k] == before[k] - Count(g[k], id) && (Count(cs, k) > 0 <==> id in g[k]) {
      assert Count(ChildrenOf(children, id), k) == Count(g[k], id);
      CountPositive(g[k], id);
    }
    hide ChildrenExact, Count, NoRepeats;
    assert indeg == Released(g, before, id);
  }

  // ---------- skipping ----------

  /** How far the marking walk has come: what is marked lies below `from`, and the dependents of
      everything marked are marked or waiting on the stack. */
  ghost predicate WalkState(g: Graph, before: map<Id, Span>, from: Id, spans: map<Id, Span>, stack: seq<Id>, seen: set<Id>) {
    && before.Keys <= spans.Keys && (forall k :: k in before ==> spans[k] == before[k])
    && spans.Keys == before.Keys + seen && before.Keys !! seen && seen <= g.Keys
    && (forall k :: k in seen ==> DependsOn(g, k, from) && spans[k] == SkippedSpan(k))
    && (forall k :: k in stack ==> k in g && DependsOn(g, k, from))
    && (forall k, m :: (k == from || k in seen) && Edge(g, m, k) ==> m in spans || m in stack)
  }

  lemma WalkPush(g: Graph, children: map<Id, seq<Id>>, before: map<Id, Span>, from: Id,
                 spans: map<Id, Span>, below: seq<Id>, seen: set<Id>, cid: Id)
    requires ChildrenExact(g, children) && Closed(g)
    requires WalkState(g, before, from, spans, below + [cid], seen) && cid !in spans
    ensures WalkState(g, before, from, spans[cid := SkippedSpan(cid)], below + ChildrenOf(children, cid), seen + {cid})
  {
    var cs := ChildrenOf(children, cid);
    assert cid in below + [cid];
    forall m ensures m in cs <==> Edge(g, m, cid) {
      ChildIsDependent(g, children, cid, m);
    }
    forall m | m in cs ensures m in g && DependsOn(g, m, from) {
      EdgeDepends(g, m, cid);
      DependsTransitive(g, m, cid, from);
    }
    hide DependsOn, ChildrenExact, Edge;
  }

  lemma WalkPop(g: Graph, before: map<Id, Span>, from: Id, spans: map<Id, Span>, below: seq<Id>, seen: set<Id>, cid: Id)
    requires WalkState(g, before, from, spans, below + [cid], seen) && cid in spans
    ensures WalkState(g, before, from, spans, below, seen)
  {
    hide DependsOn, Edge;
  }

  /** Dependents of marked and of earlier tasks all have spans, so every descendant has one. */
  lemma {:induction false} WalkReachesAll(g: Graph, before: map<Id, Span>, from: Id, spans: map<Id, Span>, seen: set<Id>,
                                          p: seq<Id>, k: Id)
    requires WalkState(g, before, from, spans, [], seen)
    requires forall m, d :: Edge(g, m, d) && d in before && DependsOn(g, d, from) ==> m in before
    requires WalkFromTo(g, p, k, from) && |p| >= 2
    ensures k in spans
    decreases |p|
  {
    assert LinkAt(g, p, 1);
    SliceWalk(g, p, 1, |p|);
    if |p| > 2 {
      var q := p[1..|p|];
      WalkReachesAll(g, before, from, spans, seen, q, p[1]);
      assert WalkFromTo(g, q, p[1], from) && |q| >= 2;
      assert DependsOn(g, p[1], from);
    }
  }

  /** Marks the descendants of a failed task with an explicit stack.  The walk does not go past
      a task that already has a span; nothing is missed as long as the dependents of such tasks
      have spans already. */
  method MarkDescendantsSkipped(g: Graph, children: map<Id, seq<Id>>, before: map<Id, Span>, from: Id)
    returns (spans: map<Id, Span>)
    requires ChildrenExact(g, children) && Closed(g) && before.Keys <= g.Keys
    requires forall m, d :: Edge(g, m, d) && d in before && DependsOn(g, d, from) ==> m in before
    ensures spans == WithDescendantsSkipped(g, before, from)
    ensures forall k :: k in spans && k !in before ==> spans[k] == Span(k, Skipped, 0, 0, None, [], "", Null)
  {
    spans := before;
    var stack := ChildrenOf(children, from);
    var seen: set<Id> := {};
    WalkStart(g, children, before, from);
    while |stack| > 0
      invariant WalkState(g, before, from, spans, stack, seen)
      decreases g.Keys - seen, |stack|
    {
      hide WalkState;
      var cid := stack[|stack| - 1];
      ghost var full := stack;
      stack := stack[..|stack| - 1];
      assert full == stack + [cid];
      if cid in seen || cid in spans {
        SeenHasSpan(g, before, from, spans, full, seen, cid);
        WalkPop(g, before, from, spans, stack, seen, cid);
        continue;
      }
      WalkPush(g, children, before, from, spans, stack, seen, cid);
      SeenInGraph(g, before, from, spans, full, seen, cid);
      seen := seen + {cid};
      spans := spans[cid := SkippedSpan(cid)];
      stack := stack + ChildrenOf(children, cid);
    }
    forall k | k in g && DependsOn(g, k, from) ensures k in spans {
      var p :| WalkFromTo(g, p, k, from) && |p| >= 2;
      WalkReachesAll(g, before, from, spans, seen, p, k);
    }
    hide Edge, Closed, DependsOn, ChildrenExact;
  }

  lemma SeenHasSpan(g: Graph, before: map<Id, Span>, from: Id, spans: map<Id, Span>, stack: seq<Id>, seen: set<Id>, cid: Id)
    requires WalkState(g, before, from, spans, stack, seen) && (cid in seen || cid in spans)
    ensures cid in spans
  {
  }

  lemma SeenInGraph(g: Graph, before: map<Id, Span>, from: Id, spans: map<Id, Span>, stack: seq<Id>, seen: set<Id>, cid: Id)
    requires WalkState(g, before, from, spans, stack, seen) && cid in stack && cid !in spans
    ensures cid in g && cid !in seen && seen <= g.Keys
  {
  }

  lemma WalkStart(g: Graph, children: map<Id, seq<Id>>, before: map<Id, Span>, from: Id)
    requires ChildrenExact(g, children) && Closed(g)
    ensures WalkState(g, before, from, before, ChildrenOf(children, from), {})
  {
    var cs := ChildrenOf(children, from);
    forall m ensures m in cs <==> m in g && from in g[m] {
      ChildIsDependent(g, children, from, m);
    }
    forall m | m in cs ensures m in g && DependsOn(g, m, from) {
      EdgeDepends(g, m, from);
    }
  }

  /** Gives a span to every task that has none, in specification order. */
  method MarkAllUndispatchedSkipped(wf: Workflow, before: map<Id, Span>) returns (spans: map<Id, Span>)
    ensures spans == WithAllSkipped(DependencyGraph(wf.tasks), before)
    ensures forall k :: k in spans && k !in before ==> spans[k] == Span(k, Skipped, 0, 0, None, [], "", Null)
  {
    spans := before;
    for i := 0 to |wf.tasks|
      invariant forall k :: k in before ==> k in spans && spans[k] == before[k]
      invariant forall k :: k in spans && k !in before ==> spans[k] == SkippedSpan(k) && HasId(wf.tasks, k)
      invariant forall k :: 0 <= k < i ==> wf.tasks[k].id in spans
    {
      var id := wf.tasks[i].id;
      if id !in spans {
        spans := spans[id := SkippedSpan(id)];
      }
    }
    TaskMapKeys(wf.tasks);
  }
}
