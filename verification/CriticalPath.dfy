/** The longest chain of succeeded tasks, as both engines compute it: memoised cost, a back
    pointer per node, an endpoint, and a walk along the back pointers. */
module CriticalPath {
  import opened Graphs
  import opened Spans
  import opened Values

  datatype Trace = Trace(spans: map<Id, Span>, g: Graph)

  /** The dependency lists of a validated workflow, and durations that are not negative. */
  ghost predicate Wellformed(t: Trace) {
    && Closed(t.g) && Acyclic(t.g) && "" !in t.g
    && t.spans.Keys <= t.g.Keys
    && (forall id :: id in t.spans ==> t.spans[id].durationMs >= 0)
  }

  predicate Ok(t: Trace, id: Id) {
    id in t.spans && t.spans[id].status.Succeeded?
  }

  function Own(t: Trace, id: Id): int {
    if Ok(t, id) then t.spans[id].durationMs else 0
  }

  /** A succeeded task and a succeeded task it depends on. */
  ghost predicate Link(t: Trace, from: Id, to: Id) {
    Ok(t, from) && Ok(t, to) && Edge(t.g, to, from)
  }

  ghost predicate LinkedAt(t: Trace, chain: seq<Id>, i: int) {
    0 < i < |chain| && Link(t, chain[i - 1], chain[i])
  }

  /** Succeeded tasks, each a dependency of the next. */
  ghost predicate IsChain(t: Trace, chain: seq<Id>) {
    && chain != []
    && (forall i :: 0 <= i < |chain| ==> Ok(t, chain[i]))
    && (forall i :: 0 < i < |chain| ==> LinkedAt(t, chain, i))
  }

  function Last(chain: seq<Id>): Id
    requires chain != []
  {
    chain[|chain| - 1]
  }

  function Total(t: Trace, chain: seq<Id>): int {
    if chain == [] then 0 else Total(t, chain[..|chain| - 1]) + Own(t, Last(chain))
  }

  ghost predicate ChainTo(t: Trace, chain: seq<Id>, n: Id) {
    IsChain(t, chain) && Last(chain) == n
  }

  /** c is the greatest total of a chain that ends at n. */
  ghost predicate Optimal(t: Trace, n: Id, c: int) {
    && (exists chain :: ChainTo(t, chain, n) && Total(t, chain) == c)
    && (forall chain :: ChainTo(t, chain, n) ==> Total(t, chain) <= c)
  }

  ghost predicate IsSource(t: Trace, n: Id) {
    forall d :: !Link(t, d, n)
  }

  ghost predicate IsSink(t: Trace, n: Id) {
    forall m :: !Link(t, n, m)
  }

  /** No chain of succeeded tasks takes longer. */
  ghost predicate Longest(t: Trace, chain: seq<Id>) {
    IsChain(t, chain) && forall other :: IsChain(t, other) ==> Total(t, other) <= Total(t, chain)
  }

  // ---------- the same in terms of spans and dependency lists ----------

  ghost predicate HasSucceeded(spans: map<Id, Span>, id: Id) {
    id in spans && spans[id].status.Succeeded?
  }

  /** Tasks that succeeded, each in the dependency list of the next. */
  ghost predicate SucceededChain(spans: map<Id, Span>, g: Graph, chain: seq<Id>) {
    && chain != []
    && (forall i :: 0 <= i < |chain| ==> HasSucceeded(spans, chain[i]))
    && (forall i :: 0 < i < |chain| ==> chain[i] in g && chain[i - 1] in g[chain[i]])
  }

  /** The sum of the durations that the spans show. */
  ghost function Took(spans: map<Id, Span>, chain: seq<Id>): int
    requires forall i :: 0 <= i < |chain| ==> chain[i] in spans
  {
    if chain == [] then 0 else spans[chain[0]].durationMs + Took(spans, chain[1..])
  }

  ghost predicate NoneTakesLonger(spans: map<Id, Span>, g: Graph, chain: seq<Id>) {
    && SucceededChain(spans, g, chain)
    && forall other :: SucceededChain(spans, g, other) ==> Took(spans, other) <= Took(spans, chain)
  }

  /** Nothing this task depends on succeeded. */
  ghost predicate StartsAfresh(spans: map<Id, Span>, g: Graph, id: Id) {
    id in g && forall d :: d in g[id] ==> !HasSucceeded(spans, d)
  }

  /** Nothing that depends on this task succeeded. */
  ghost predicate EndsThere(spans: map<Id, Span>, g: Graph, id: Id) {
    forall m :: m in g && HasSucceeded(spans, m) ==> id !in g[m]
  }

  lemma {:induction false} TookAppend(spans: map<Id, Span>, chain: seq<Id>, n: Id)
    requires n in spans && forall i :: 0 <= i < |chain| ==> chain[i] in spans
    ensures Took(spans, chain + [n]) == Took(spans, chain) + spans[n].durationMs
    decreases |chain|
  {
    if chain == [] {
      assert [n][1..] == [];
    } else {
      TookAppend(spans, chain[1..], n);
      assert (chain + [n])[1..] == chain[1..] + [n];
    }
  }

  lemma {:induction false} TotalIsTook(t: Trace, chain: seq<Id>)
    requires forall i :: 0 <= i < |chain| ==> chain[i] in t.spans && Ok(t, chain[i])
    ensures Total(t, chain) == Took(t.spans, chain)
    decreases |chain|
  {
    if chain != [] {
      var front := chain[..|chain| - 1];
      TotalIsTook(t, front);
      TookAppend(t.spans, front, Last(chain));
      assert chain == front + [Last(chain)];
    }
  }

  lemma ChainMeans(t: Trace, chain: seq<Id>)
    requires Wellformed(t)
    ensures IsChain(t, chain) <==> SucceededChain(t.spans, t.g, chain)
  {
    hide Acyclic;
    if SucceededChain(t.spans, t.g, chain) {
      forall i | 0 < i < |chain| ensures LinkedAt(t, chain, i) {
        assert HasSucceeded(t.spans, chain[i - 1]) && HasSucceeded(t.spans, chain[i]);
      }
    }
    if IsChain(t, chain) {
      forall i | 0 < i < |chain| ensures chain[i] in t.g && chain[i - 1] in t.g[chain[i]] {
        assert LinkedAt(t, chain, i);
      }
    }
  }

  lemma LongestMeans(t: Trace, chain: seq<Id>)
    requires Wellformed(t)
    ensures Longest(t, chain) <==> NoneTakesLonger(t.spans, t.g, chain)
  {
    forall other ensures IsChain(t, other) <==> SucceededChain(t.spans, t.g, other) {
      ChainMeans(t, other);
    }
    forall other | IsChain(t, other) ensures Total(t, other) == Took(t.spans, other) {
      TotalIsTook(t, other);
    }
    hide Wellformed, IsChain, SucceededChain, Total, Took;
  }

  lemma EndsMean(t: Trace, id: Id)
    requires Wellformed(t) && Ok(t, id)
    ensures IsSource(t, id) <==> StartsAfresh(t.spans, t.g, id)
    ensures IsSink(t, id) <==> EndsThere(t.spans, t.g, id)
  {
    hide Acyclic;
    if IsSource(t, id) {
      forall d | d in t.g[id] ensures !HasSucceeded(t.spans, d) { assert !Link(t, d, id); }
    }
    if IsSink(t, id) {
      forall m | m in t.g && HasSucceeded(t.spans, m) ensures id !in t.g[m] { assert !Link(t, id, m); }
    }
  }

  /** What the results about chains say of the spans themselves. */
  lemma ResultMeans(t: Trace, path: seq<Id>)
    requires Wellformed(t) && path != [] && Longest(t, path)
    ensures NoneTakesLonger(t.spans, t.g, path)
    ensures IsSource(t, path[0]) <==> StartsAfresh(t.spans, t.g, path[0])
    ensures IsSink(t, Last(path)) <==> EndsThere(t.spans, t.g, path[|path| - 1])
  {
    LongestMeans(t, path);
    EndsMean(t, path[0]);
    EndsMean(t, Last(path));
  }

  // ---------- chains ----------

  lemma ExtendChain(t: Trace, chain: seq<Id>, n: Id)
    requires IsChain(t, chain) && Link(t, Last(chain), n)
    ensures ChainTo(t, chain + [n], n) && Total(t, chain + [n]) == Total(t, chain) + Own(t, n)
  {
    var w := chain + [n];
    forall i | 0 < i < |w| ensures LinkedAt(t, w, i) {
      if i < |chain| { assert LinkedAt(t, chain, i); }
    }
    assert w[..|w| - 1] == chain;
  }

  lemma SoloChain(t: Trace, n: Id)
    requires Ok(t, n)
    ensures ChainTo(t, [n], n) && Total(t, [n]) == Own(t, n)
  {
    assert [n][..0] == [];
  }

  /** The front of a chain is a chain to a dependency of its last task. */
  lemma DropLast(t: Trace, chain: seq<Id>)
    requires IsChain(t, chain) && |chain| > 1
    ensures var front := chain[..|chain| - 1];
            ChainTo(t, front, Last(front)) && Link(t, Last(front), Last(chain))
  {
    var front := chain[..|chain| - 1];
    forall i | 0 < i < |front| ensures LinkedAt(t, front, i) {
      assert LinkedAt(t, chain, i);
    }
    assert LinkedAt(t, chain, |chain| - 1);
  }

  lemma {:induction false} TotalNonNegative(t: Trace, chain: seq<Id>)
    requires Wellformed(t)
    ensures Total(t, chain) >= 0
    decreases |chain|
  {
    if chain != [] { TotalNonNegative(t, chain[..|chain| - 1]); }
  }

  lemma OptimalUnique(t: Trace, n: Id, a: int, b: int)
    requires Optimal(t, n, a) && Optimal(t, n, b)
    ensures a == b
  {
  }

  lemma OptimalNonNegative(t: Trace, n: Id, c: int)
    requires Wellformed(t) && Optimal(t, n, c)
    ensures c >= 0
  {
    var chain :| ChainTo(t, chain, n) && Total(t, chain) == c;
    TotalNonNegative(t, chain);
  }

  /** The recurrence: own duration plus the best over succeeded dependencies, or plus nothing. */
  lemma OptimalStep(t: Trace, n: Id, best: int, prev: Option<Id>, costs: map<Id, int>)
    requires Wellformed(t) && Ok(t, n)
    requires forall d :: Link(t, d, n) ==> d in costs && Optimal(t, d, costs[d]) && costs[d] <= best
    requires prev.Some? ==> Link(t, prev.value, n) && best == costs[prev.value]
    requires prev.None? ==> best == 0
    ensures Optimal(t, n, Own(t, n) + best)
  {
    var c := Own(t, n) + best;
    forall chain | ChainTo(t, chain, n) ensures Total(t, chain) <= c {
      if |chain| > 1 {
        DropLast(t, chain);
        assert Total(t, chain[..|chain| - 1]) <= costs[Last(chain[..|chain| - 1])];
      } else {
        assert chain == [n];
        SoloChain(t, n);
        if prev.Some? { OptimalNonNegative(t, prev.value, best); }
      }
    }
    if prev.Some? {
      var chain :| ChainTo(t, chain, prev.value) && Total(t, chain) == best;
      ExtendChain(t, chain, n);
    } else {
      SoloChain(t, n);
    }
  }

  // ---------- the best total ----------

  /** The best among the first i entries of a dependency list, by a scan in list order. */
  lemma {:induction false} ScanCosts(t: Trace, n: Id, costs: map<Id, int>, i: nat) returns (best: int, prev: Option<Id>)
    requires Wellformed(t) && Ok(t, n) && i <= |t.g[n]|
    requires forall d :: Link(t, d, n) ==> d in costs && costs[d] >= 0
    ensures forall k :: 0 <= k < i && Ok(t, t.g[n][k]) ==> t.g[n][k] in costs && costs[t.g[n][k]] <= best
    ensures prev.Some? ==> Link(t, prev.value, n) && best == costs[prev.value]
    ensures prev.None? ==> best == 0
    decreases i
  {
    if i == 0 {
      best, prev := 0, None;
    } else {
      best, prev := ScanCosts(t, n, costs, i - 1);
      var d := t.g[n][i - 1];
      if Ok(t, d) {
        assert Link(t, d, n);
        if costs[d] > best { best, prev := costs[d], Some(d); }
      }
    }
  }

  lemma {:induction false} BestExists(t: Trace, r: map<Id, nat>, n: Id)
    requires Wellformed(t) && IsRank(t.g, r) && Ok(t, n)
    ensures exists c :: Optimal(t, n, c)
    decreases r[n]
  {
    forall d | Link(t, d, n) ensures exists c :: Optimal(t, d, c) && c >= 0 {
      BestExists(t, r, d);
      var c :| Optimal(t, d, c);
      OptimalNonNegative(t, d, c);
    }
    hide Optimal, Acyclic, Closed, IsRank;
    var costs := map d | d in t.g && Link(t, d, n) :: var c :| Optimal(t, d, c) && c >= 0; c;
    var best, prev := ScanCosts(t, n, costs, |t.g[n]|);
    forall d | Link(t, d, n) ensures d in costs && Optimal(t, d, costs[d]) && costs[d] <= best {
      var k :| 0 <= k < |t.g[n]| && t.g[n][k] == d;
    }
    OptimalStep(t, n, best, prev, costs);
  }

  lemma SomeBest(t: Trace, n: Id)
    requires Wellformed(t) && Ok(t, n)
    ensures exists c :: Optimal(t, n, c)
  {
    AcyclicIffRanked(t.g);
    var r :| IsRank(t.g, r);
    BestExists(t, r, n);
  }

  /** The greatest total of a chain that ends at n. */
  ghost function Best(t: Trace, n: Id): int
    requires Wellformed(t) && Ok(t, n)
  {
    SomeBest(t, n);
    var c :| Optimal(t, n, c);
    c
  }

  lemma BestIsOptimal(t: Trace, n: Id)
    requires Wellformed(t) && Ok(t, n)
    ensures Optimal(t, n, Best(t, n)) && Best(t, n) >= 0
  {
    SomeBest(t, n);
    OptimalNonNegative(t, n, Best(t, n));
  }

  /** Entry k of the dependency list is the first of greatest cost among the first i. */
  ghost predicate FirstBest(t: Trace, n: Id, i: nat, k: int)
    requires Wellformed(t)
  {
    && n in t.g && 0 <= k < i <= |t.g[n]| && Ok(t, t.g[n][k])
    && (forall j :: 0 <= j < i && Ok(t, t.g[n][j]) ==> Best(t, t.g[n][j]) <= Best(t, t.g[n][k]))
    && (forall j :: 0 <= j < k && Ok(t, t.g[n][j]) ==> Best(t, t.g[n][j]) < Best(t, t.g[n][k]))
  }

  /** p is the dependency the engines come back to from n: the first of greatest cost. */
  ghost predicate CameFrom(t: Trace, n: Id, p: Id)
    requires Wellformed(t)
  {
    exists k :: FirstBest(t, n, if n in t.g then |t.g[n]| else 0, k) && t.g[n][k] == p
  }

  lemma CameFromUnique(t: Trace, n: Id, p: Id, q: Id)
    requires Wellformed(t) && CameFrom(t, n, p) && CameFrom(t, n, q)
    ensures p == q
  {
    var k :| FirstBest(t, n, |t.g[n]|, k) && t.g[n][k] == p;
    var l :| FirstBest(t, n, |t.g[n]|, l) && t.g[n][l] == q;
    assert Best(t, t.g[n][k]) <= Best(t, t.g[n][l]) && Best(t, t.g[n][l]) <= Best(t, t.g[n][k]);
  }

  lemma CameFromLink(t: Trace, n: Id, p: Id)
    requires Wellformed(t) && Ok(t, n) && CameFrom(t, n, p)
    ensures Link(t, p, n) && Best(t, n) == Own(t, n) + Best(t, p)
    ensures forall d :: Link(t, d, n) ==> Best(t, d) <= Best(t, p)
  {
    var k :| FirstBest(t, n, |t.g[n]|, k) && t.g[n][k] == p;
    assert Edge(t.g, n, p);
    BestSoFar(t, n, Best(t, p), Some(p));
  }

  lemma SourceBest(t: Trace, n: Id)
    requires Wellformed(t) && Ok(t, n) && forall d :: Link(t, d, n) ==> Best(t, d) <= 0
    ensures Best(t, n) == Own(t, n)
  {
    BestSoFar(t, n, 0, None);
  }

  lemma BestSoFar(t: Trace, n: Id, best: int, prev: Option<Id>)
    requires Wellformed(t) && Ok(t, n)
    requires forall d :: Link(t, d, n) ==> Best(t, d) <= best
    requires prev.Some? ==> Link(t, prev.value, n) && best == Best(t, prev.value)
    requires prev.None? ==> best == 0
    ensures Best(t, n) == Own(t, n) + best
  {
    var costs := map d | d in t.g && Ok(t, d) :: Best(t, d);
    forall d | Link(t, d, n) ensures d in costs && Optimal(t, d, costs[d]) && costs[d] <= best {
      BestIsOptimal(t, d);
    }
    OptimalStep(t, n, best, prev, costs);
    BestIsOptimal(t, n);
    OptimalUnique(t, n, Best(t, n), Own(t, n) + best);
  }

  /** Without a succeeded dependency there is nothing to come from, and the other way round. */
  lemma SourceOrCameFrom(t: Trace, n: Id) returns (p: Option<Id>)
    requires Wellformed(t) && Ok(t, n)
    ensures p.None? ==> IsSource(t, n)
    ensures p.Some? ==> CameFrom(t, n, p.value)
  {
    var k := ScanFirstBest(t, n, |t.g[n]|);
    if k.None? {
      forall d ensures !Link(t, d, n) { }
      p := None;
    } else {
      p := Some(t.g[n][k.value]);
    }
  }

  lemma {:induction false} ScanFirstBest(t: Trace, n: Id, i: nat) returns (k: Option<nat>)
    requires Wellformed(t) && Ok(t, n) && i <= |t.g[n]|
    ensures k.None? ==> forall j :: 0 <= j < i ==> !Ok(t, t.g[n][j])
    ensures k.Some? ==> FirstBest(t, n, i, k.value)
    decreases i
  {
    assert n in t.g;
    hide Wellformed, Best;
    if i == 0 {
      k := None;
    } else {
      k := ScanFirstBest(t, n, i - 1);
      var d := t.g[n][i - 1];
      if Ok(t, d) && (k.None? || Best(t, d) > Best(t, t.g[n][k.value])) {
        k := Some(i - 1);
      }
    }
  }

  // ---------- trails ----------

  ghost predicate StepBackAt(t: Trace, trail: seq<Id>, i: int)
    requires Wellformed(t)
  {
    0 < i < |trail| && CameFrom(t, trail[i], trail[i - 1])
  }

  /** Succeeded tasks, each the one its successor came from. */
  ghost predicate Steps(t: Trace, trail: seq<Id>)
    requires Wellformed(t)
  {
    && trail != []
    && (forall i :: 0 <= i < |trail| ==> Ok(t, trail[i]))
    && (forall i :: 0 < i < |trail| ==> StepBackAt(t, trail, i))
  }

  /** The whole way back from the last task: what the Go engine lists. */
  ghost predicate Trail(t: Trace, trail: seq<Id>)
    requires Wellformed(t)
  {
    Steps(t, trail) && IsSource(t, trail[0])
  }

  lemma StepsFront(t: Trace, trail: seq<Id>)
    requires Wellformed(t) && Steps(t, trail) && |trail| > 1
    ensures var front := trail[..|trail| - 1];
            Steps(t, front) && CameFrom(t, Last(trail), Last(front)) && front[0] == trail[0]
  {
    var front := trail[..|trail| - 1];
    forall i | 0 < i < |front| ensures StepBackAt(t, front, i) {
      assert StepBackAt(t, trail, i);
    }
    assert StepBackAt(t, trail, |trail| - 1);
  }

  /** A trail is a chain, and its total is what the cost of its first task lacks to that of its last. */
  lemma {:induction false} StepsTotal(t: Trace, trail: seq<Id>)
    requires Wellformed(t) && Steps(t, trail)
    ensures IsChain(t, trail) && Total(t, trail) == Best(t, Last(trail)) - Best(t, trail[0]) + Own(t, trail[0])
    decreases |trail|
  {
    hide Best, Wellformed, CameFrom;
    if |trail| == 1 {
      SoloChain(t, trail[0]);
      assert trail == [trail[0]];
    } else {
      var front := trail[..|trail| - 1];
      StepsFront(t, trail);
      StepsTotal(t, front);
      CameFromLink(t, Last(trail), Last(front));
      ExtendChain(t, front, Last(trail));
      assert trail == front + [Last(trail)];
    }
  }

  /** Position i of `order` holds the first task of greatest cost among those of `pick`. */
  ghost predicate FirstTop(t: Trace, order: seq<Id>, pick: set<Id>, i: int)
    requires Wellformed(t)
  {
    && 0 <= i < |order| && order[i] in pick && Ok(t, order[i])
    && (forall n :: n in pick && Ok(t, n) ==> Best(t, n) <= Best(t, order[i]))
    && (forall j :: 0 <= j < i && order[j] in pick && Ok(t, order[j]) ==> Best(t, order[j]) < Best(t, order[i]))
  }

  ghost predicate EndsAt(t: Trace, order: seq<Id>, pick: set<Id>, end: Id)
    requires Wellformed(t)
  {
    exists i :: FirstTop(t, order, pick, i) && order[i] == end
  }

  /** An order in which the spans can be visited. */
  ghost predicate Visits(t: Trace, order: seq<Id>) {
    forall n :: n in order <==> n in t.spans
  }

  ghost function Sinks(t: Trace): set<Id> {
    set n | n in t.spans && Ok(t, n) && IsSink(t, n)
  }

  ghost function AllOk(t: Trace): set<Id> {
    set n | n in t.spans && Ok(t, n)
  }

  // ---------- sinks ----------

  /** Above every succeeded task there is a sink, reached by a chain. */
  lemma {:induction false} ReachSink(t: Trace, r: map<Id, nat>, chain: seq<Id>, above: set<Id>) returns (longer: seq<Id>)
    requires Wellformed(t) && IsRank(t.g, r) && IsChain(t, chain)
    requires forall m :: Ok(t, m) && r[m] > r[Last(chain)] ==> m in above
    ensures IsChain(t, longer) && IsSink(t, Last(longer)) && Total(t, longer) >= Total(t, chain)
    decreases |above|
  {
    if m :| Link(t, Last(chain), m) {
      ExtendChain(t, chain, m);
      longer := ReachSink(t, r, chain + [m], above - {m});
    } else {
      longer := chain;
    }
  }

  lemma SinkAbove(t: Trace, chain: seq<Id>) returns (longer: seq<Id>)
    requires Wellformed(t) && IsChain(t, chain)
    ensures IsChain(t, longer) && IsSink(t, Last(longer)) && Total(t, longer) >= Total(t, chain)
  {
    AcyclicIffRanked(t.g);
    var r :| IsRank(t.g, r);
    longer := ReachSink(t, r, chain, t.spans.Keys);
  }

  /** A chain that is best among those ending at sinks is best among all. */
  lemma BestAtSinksIsLongest(t: Trace, chain: seq<Id>)
    requires Wellformed(t) && IsChain(t, chain)
    requires forall n, c :: Ok(t, n) && IsSink(t, n) && Optimal(t, n, c) ==> c <= Total(t, chain)
    requires forall n :: Ok(t, n) && IsSink(t, n) ==> exists c :: Optimal(t, n, c)
    ensures Longest(t, chain)
  {
    forall other | IsChain(t, other) ensures Total(t, other) <= Total(t, chain) {
      var longer := SinkAbove(t, other);
      var c :| Optimal(t, Last(longer), c);
      assert ChainTo(t, longer, Last(longer));
    }
  }

  // ---------- reversal ----------

  function Reversed(s: seq<Id>): seq<Id> {
    seq(|s|, i requires 0 <= i < |s| => s[|s| - 1 - i])
  }

  method ReverseInPlace(a: array<Id>)
    modifies a
    ensures a[..] == Reversed(old(a[..]))
  {
    var i, j := 0, a.Length - 1;
    while i < j
      invariant 0 <= i <= a.Length && j == a.Length - 1 - i && i <= j + 1
      invariant forall k :: 0 <= k < i ==> a[k] == old(a[a.Length - 1 - k]) && a[a.Length - 1 - k] == old(a[k])
      invariant forall k :: i <= k <= j ==> a[k] == old(a[k])
    {
      a[i], a[j] := a[j], a[i];
      i, j := i + 1, j - 1;
    }
  }

  /** The list built by following back pointers, latest task first. */
  ghost predicate BackSteps(t: Trace, back: seq<Id>)
    requires Wellformed(t)
  {
    && (forall i :: 0 <= i < |back| ==> Ok(t, back[i]))
    && (forall i :: 0 < i < |back| ==> CameFrom(t, back[i - 1], back[i]))
  }

  lemma ReversedSteps(t: Trace, back: seq<Id>)
    requires Wellformed(t) && BackSteps(t, back) && back != []
    ensures Steps(t, Reversed(back)) && Last(Reversed(back)) == back[0] && Reversed(back)[0] == Last(back)
  {
    var trail := Reversed(back);
    forall i | 0 < i < |trail| ensures StepBackAt(t, trail, i) {
      assert CameFrom(t, back[|back| - i - 1], back[|back| - i]);
    }
  }
}
