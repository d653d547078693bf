/** Rate limits over whole runs: token buckets composed with the permit channel bound the rate
    of executor calls, globally and per provider, in every interleaving. */
module EngineRates {
  import opened Values
  import opened Graphs
  import opened Workflows
  import Scheduling
  import Buckets
  import SchedulerInvariant
  import SP = SchedulerProperties
  import TaskExecution
  import Templates
  import opened Confluence
  import opened Engine
  import opened EngineInvariant

  ghost predicate Limited(w: World, k: Key, p: Buckets.Params) {
    LimitOf(w, k).Some? && LimitOf(w, k).value.per > 0.0 && p == ParamsOf(LimitOf(w, k).value) && Buckets.Sane(p)
  }

  lemma LimitIsSane(w: World, k: Key)
    requires Sensible(w) && LimitOf(w, k).Some?
    ensures LimitOf(w, k).value.per > 0.0 && Limited(w, k, ParamsOf(LimitOf(w, k).value))
  {
    var r := LimitOf(w, k).value;
    assert SaneLimit(LimitOf(w, k));
    Buckets.RatioPositive(r.requests as real, r.per);
  }

  // ---------- tokens ----------

  ghost predicate BucketOk(s: Sys, k: Key, p: Buckets.Params) {
    k in s.buckets && Buckets.InRange(p, s.buckets[k]) && s.buckets[k].updated <= s.now
  }

  function Level(s: Sys, k: Key, p: Buckets.Params): real
    requires k in s.buckets
  {
    Buckets.LevelAt(p, s.buckets[k], s.now)
  }

  /** Tokens granted plus tokens at hand grow by no more than what flows in. */
  ghost predicate Balanced(s: Sys, t: Sys, k: Key, p: Buckets.Params)
    requires k in s.buckets && k in t.buckets
  {
    (Get(t.taken, k) - Get(s.taken, k)) as real + Level(t, k, p) <= Level(s, k, p) + Buckets.Inflow(p, s.now, t.now)
  }

  lemma PollEffect(p: Buckets.Params, b: Buckets.Tokens, now: real)
    requires Buckets.Sane(p) && Buckets.InRange(p, b) && b.updated <= now
    ensures var c := Buckets.Polled(p, b, now, 1.0);
            && Buckets.InRange(p, c) && c.updated == now
            && Buckets.LevelAt(p, c, now) ==
               Buckets.LevelAt(p, b, now) - if Buckets.LevelAt(p, b, now) >= 1.0 then 1.0 else 0.0
  {
    hide Buckets.Inflow;
    Buckets.LevelInRange(p, b, now);
    Buckets.NoInflow(p, now);
  }

  lemma TickBalanced(s: Sys, dt: real, k: Key, p: Buckets.Params)
    requires Buckets.Sane(p) && BucketOk(s, k, p) && dt >= 0.0
    ensures var t := s.(now := s.now + dt); BucketOk(t, k, p) && Balanced(s, t, k, p)
  {
    hide Buckets.Inflow, Buckets.LevelAt;
    var b := s.buckets[k];
    Buckets.LevelInRange(p, b, s.now);
    Buckets.LevelInRange(p, b, s.now + dt);
    Buckets.RefillTwice(p, b, s.now, s.now + dt);
    Buckets.LevelInRange(p, Buckets.Refilled(p, b, s.now), s.now + dt);
  }

  lemma WorkBalanced(w: World, s: Sys, id: Id, m: Move, k: Key, p: Buckets.Params)
    requires Limited(w, k, p) && BucketOk(s, k, p)
    requires id in s.workers && id in G(w) && CanMove(w, id, s.workers[id], m) && Resources(w, s, id, m)
    ensures var t := WorkStep(w, s, id, m); BucketOk(t, k, p) && Balanced(s, t, k, p)
  {
    hide Moved, Buckets.LevelAt, Buckets.Polled, Buckets.Inflow, UsesProvider, TaskOf;
    Buckets.NoInflow(p, s.now);
    PollEffect(p, s.buckets[k], s.now);
  }

  lemma StepBalanced(w: World, s: Sys, a: Action, k: Key, p: Buckets.Params)
    requires Limited(w, k, p) && BucketOk(s, k, p) && Enabled(w, s, a)
    ensures BucketOk(Apply(w, s, a), k, p) && Balanced(s, Apply(w, s, a), k, p)
  {
    assert Buckets.Sane(p);
    hide WorkStep, Limited, LimitOf, Buckets.LevelAt, Buckets.Inflow;
    match a {
      case Work(id, m) => WorkBalanced(w, s, id, m, k, p);
      case Tick(dt) => TickBalanced(s, dt, k, p);
      case _ => Buckets.NoInflow(p, s.now);
    }
  }

  lemma StepTime(w: World, s: Sys, a: Action)
    requires Enabled(w, s, a)
    ensures Apply(w, s, a).now >= s.now
  {
  }

  /** Balance carries over from step to step. */
  lemma BalancedTransitive(s: Sys, t: Sys, u: Sys, k: Key, p: Buckets.Params)
    requires k in s.buckets && k in t.buckets && k in u.buckets
    requires Balanced(s, t, k, p) && Balanced(t, u, k, p)
    ensures Balanced(s, u, k, p)
  {
    Buckets.InflowSplits(p, s.now, t.now, u.now);
    hide Buckets.Inflow, Level;
  }

  lemma InitialBucket(w: World, k: Key, p: Buckets.Params)
    requires Limited(w, k, p)
    ensures BucketOk(Init(w), k, p)
  {
    match k {
      case Global =>
      case Provider(name) => assert name in w.wf.providers;
    }
  }

  lemma {:induction false} RunBucketOk(w: World, tr: seq<Sys>, acts: seq<Action>, k: Key, p: Buckets.Params, i: nat)
    requires Limited(w, k, p) && Run(w, tr, acts) && i < |tr|
    ensures BucketOk(tr[i], k, p)
    decreases i
  {
    hide Apply, Enabled, Limited, Init, BucketOk;
    if i == 0 {
      InitialBucket(w, k, p);
    } else {
      RunBucketOk(w, tr, acts, k, p, i - 1);
      assert StepAt(w, tr, acts, i - 1);
      StepBalanced(w, tr[i - 1], acts[i - 1], k, p);
    }
  }

  lemma {:induction false} RunBalanced(w: World, tr: seq<Sys>, acts: seq<Action>, k: Key, p: Buckets.Params, i: nat, j: nat)
    requires Limited(w, k, p) && Run(w, tr, acts) && i <= j < |tr|
    ensures BucketOk(tr[i], k, p) && BucketOk(tr[j], k, p) && Balanced(tr[i], tr[j], k, p) && tr[i].now <= tr[j].now
    decreases j
  {
    hide Apply, Enabled, Limited, Balanced;
    RunBucketOk(w, tr, acts, k, p, i);
    RunBucketOk(w, tr, acts, k, p, j);
    if i < j {
      RunBalanced(w, tr, acts, k, p, i, j - 1);
      assert StepAt(w, tr, acts, j - 1);
      StepBalanced(w, tr[j - 1], acts[j - 1], k, p);
      StepTime(w, tr[j - 1], acts[j - 1]);
      BalancedTransitive(tr[i], tr[j - 1], tr[j], k, p);
    } else {
      SelfBalanced(tr[i], k, p);
    }
  }

  lemma SelfBalanced(s: Sys, k: Key, p: Buckets.Params)
    requires k in s.buckets
    ensures Balanced(s, s, k, p)
  {
    Buckets.NoInflow(p, s.now);
  }

  // ---------- calls ----------

  /** The goroutine has taken a token of this limiter and not yet made the call it is for. */
  predicate HoldsToken(w: World, id: Id, pc: Pc, k: Key)
    requires id in G(w)
  {
    match k
    case Global => pc.WantProvider? || pc.MayCall?
    case Provider(_) => pc.MayCall? && UsesProvider(w, id) && ProviderKey(w, id) == k
  }

  function TokenHolders(w: World, workers: map<Id, Worker>, k: Key): set<Id> {
    set id | id in workers && id in G(w) && HoldsToken(w, id, workers[id].pc, k)
  }

  lemma TokenHoldersUpdate(w: World, workers: map<Id, Worker>, id: Id, v: Worker, k: Key)
    requires id in G(w)
    ensures var was := id in workers && HoldsToken(w, id, workers[id].pc, k);
            |TokenHolders(w, workers[id := v], k)| ==
            |TokenHolders(w, workers, k)| - (if was then 1 else 0) + (if HoldsToken(w, id, v.pc, k) then 1 else 0)
  {
    hide DependencyGraph, HoldsToken;
    SizeAfterChange(TokenHolders(w, workers, k), TokenHolders(w, workers[id := v], k), id);
  }

  /** Calls made plus calls a token is held for. */
  function Committed(w: World, s: Sys, k: Key): int {
    Get(s.calls, k) + |TokenHolders(w, s.workers, k)|
  }

  /** A move commits to a further call only by taking a token. */
  lemma MoveCommits(w: World, s: Sys, id: Id, m: Move, k: Key)
    requires id in s.workers && id in G(w) && CanMove(w, id, s.workers[id], m)
    ensures var t := WorkStep(w, s, id, m);
            var v := t.workers[id];
            var held, holds := HoldsToken(w, id, s.workers[id].pc, k), HoldsToken(w, id, v.pc, k);
            Get(t.calls, k) - Get(s.calls, k) + (if holds then 1 else 0) - (if held then 1 else 0)
              <= Get(t.taken, k) - Get(s.taken, k)
  {
    hide DependencyGraph, TaskOf, PolledBuckets, MaxRetries, TaskExecution.AfterCall, Templates.Resolve;
  }

  lemma WorkCommits(w: World, s: Sys, id: Id, m: Move, k: Key)
    requires id in s.workers && id in G(w) && CanMove(w, id, s.workers[id], m)
    ensures var t := WorkStep(w, s, id, m);
            Committed(w, t, k) - Committed(w, s, k) <= Get(t.taken, k) - Get(s.taken, k)
  {
    MoveCommits(w, s, id, m, k);
    TokenHoldersUpdate(w, s.workers, id, Moved(w, id, s.workers[id], m), k);
    hide HoldsToken, TokenHolders, Moved, Get;
  }

  lemma StepCommits(w: World, s: Sys, a: Action, k: Key)
    requires Enabled(w, s, a)
    ensures Committed(w, Apply(w, s, a), k) - Committed(w, s, k) <= Get(Apply(w, s, a).taken, k) - Get(s.taken, k)
  {
    hide WorkStep, DependencyGraph;
    match a {
      case Work(id, m) => WorkCommits(w, s, id, m, k);
      case _ =>
        var t := Apply(w, s, a);
        assert TokenHolders(w, t.workers, k) <= TokenHolders(w, s.workers, k);
        SP.SubsetSize(TokenHolders(w, t.workers, k), TokenHolders(w, s.workers, k));
    }
  }

  lemma {:induction false} RunCommits(w: World, tr: seq<Sys>, acts: seq<Action>, k: Key, i: nat, j: nat)
    requires Run(w, tr, acts) && i <= j < |tr|
    ensures Committed(w, tr[j], k) - Committed(w, tr[i], k) <= Get(tr[j].taken, k) - Get(tr[i].taken, k)
    decreases j
  {
    hide Apply, Enabled, Committed, Get;
    if i < j {
      RunCommits(w, tr, acts, k, i, j - 1);
      assert StepAt(w, tr, acts, j - 1);
      StepCommits(w, tr[j - 1], acts[j - 1], k);
    }
  }

  lemma FewTokenHolders(w: World, s: Sys, k: Key)
    requires EInv(w, s)
    ensures |TokenHolders(w, s.workers, k)| <= w.wf.maxParallel
  {
    hide SchedulerInvariant.Inv, DependencyGraph;
    SP.SubsetSize(TokenHolders(w, s.workers, k), Holders(s.workers));
  }

  /** Tokens granted between two moments of a run: at most a full bucket and the inflow. */
  lemma TokenWindow(w: World, tr: seq<Sys>, acts: seq<Action>, k: Key, p: Buckets.Params, i: nat, j: nat)
    requires Limited(w, k, p) && Run(w, tr, acts) && i <= j < |tr|
    ensures (Get(tr[j].taken, k) - Get(tr[i].taken, k)) as real <= p.capacity + Buckets.Inflow(p, tr[i].now, tr[j].now)
  {
    RunBalanced(w, tr, acts, k, p, i, j);
    Buckets.LevelInRange(p, tr[i].buckets[k], tr[i].now);
    Buckets.LevelInRange(p, tr[j].buckets[k], tr[j].now);
    hide Buckets.LevelAt, Buckets.Inflow, Get;
  }

  /** Composed rate bound: between any two moments of any run, executor calls under a limiter
      number at most its requests, plus rate times elapsed time, plus MaxParallel. */
  lemma CallWindow(w: World, tr: seq<Sys>, acts: seq<Action>, k: Key, i: nat, j: nat)
    requires Sensible(w) && Run(w, tr, acts) && i <= j < |tr| && LimitOf(w, k).Some?
    ensures var r := LimitOf(w, k).value;
            && r.per > 0.0
            && (Get(tr[j].calls, k) - Get(tr[i].calls, k)) as real
               <= r.requests as real + Buckets.Inflow(ParamsOf(r), tr[i].now, tr[j].now) + w.wf.maxParallel as real
  {
    LimitIsSane(w, k);
    var p := ParamsOf(LimitOf(w, k).value);
    TokenWindow(w, tr, acts, k, p, i, j);
    RunCommits(w, tr, acts, k, i, j);
    RunEInv(w, tr, acts, i);
    FewTokenHolders(w, tr[i], k);
    hide Run, EInv, TokenHolders, Get, Sensible, Buckets.Inflow, LimitOf;
  }

  /** From the start of a run: at most the requests plus rate times elapsed time. */
  lemma CallsFromStart(w: World, tr: seq<Sys>, acts: seq<Action>, k: Key, j: nat)
    requires Sensible(w) && Run(w, tr, acts) && j < |tr| && LimitOf(w, k).Some?
    ensures var r := LimitOf(w, k).value;
            r.per > 0.0 && Get(tr[j].calls, k) as real <= r.requests as real + Buckets.Inflow(ParamsOf(r), 0.0, tr[j].now)
  {
    LimitIsSane(w, k);
    var p := ParamsOf(LimitOf(w, k).value);
    TokenWindow(w, tr, acts, k, p, 0, j);
    RunCommits(w, tr, acts, k, 0, j);
    assert TokenHolders(w, tr[0].workers, k) == {};
    hide TokenHolders, Sensible, Buckets.Inflow, LimitOf, StepAt;
  }

  // ---------- the same, counted on the run itself ----------

  /** The step is an executor call; with a provider given, the call of a task of that provider. */
  ghost predicate IsCall(w: World, a: Action, provider: Option<string>) {
    && a.Work? && a.move.Call?
    && (provider.Some? ==>
          a.id in TaskMap(w.wf.tasks) && TaskMap(w.wf.tasks)[a.id].provider == provider.value)
  }

  /** How many steps from the i-th up to the j-th are such calls. */
  ghost function CallCount(w: World, acts: seq<Action>, provider: Option<string>, i: nat, j: nat): nat
    requires i <= j <= |acts|
    decreases j
  {
    if i == j then 0
    else CallCount(w, acts, provider, i, j - 1) + if IsCall(w, acts[j - 1], provider) then 1 else 0
  }

  function KeyOf(provider: Option<string>): Key {
    match provider
    case None => Global
    case Some(p) => Provider(p)
  }

  /** A task names a provider by a text that is not empty, and the workflow knows the provider. */
  ghost predicate Named(w: World, provider: Option<string>) {
    provider.Some? ==> provider.value != "" && provider.value in w.wf.providers
  }

  lemma StepCalls(w: World, s: Sys, a: Action, provider: Option<string>)
    requires Enabled(w, s, a) && Named(w, provider)
    ensures Get(Apply(w, s, a).calls, KeyOf(provider)) ==
            Get(s.calls, KeyOf(provider)) + if IsCall(w, a, provider) then 1 else 0
  {
    hide Moved, PolledBuckets, Scheduling.Apply, Scheduling.Enabled, CanMove, Resources, TaskMap;
  }

  /** The counters of the model count these steps. */
  lemma {:induction false} CountersExact(w: World, tr: seq<Sys>, acts: seq<Action>, provider: Option<string>, i: nat, j: nat)
    requires Run(w, tr, acts) && i <= j <= |acts| && Named(w, provider)
    ensures Get(tr[j].calls, KeyOf(provider)) - Get(tr[i].calls, KeyOf(provider)) == CallCount(w, acts, provider, i, j)
    decreases j
  {
    hide Apply, Enabled, IsCall, Get, KeyOf, Named, Init;
    if i < j {
      CountersExact(w, tr, acts, provider, i, j - 1);
      assert StepAt(w, tr, acts, j - 1);
      StepCalls(w, tr[j - 1], acts[j - 1], provider);
    }
  }

  /** The limit on all calls, or on those of a provider's tasks. */
  ghost predicate LimitedTo(w: World, provider: Option<string>, r: RateLimit) {
    match provider
    case None => w.wf.rateLimit == Some(r)
    case Some(p) => p != "" && p in w.wf.providers && w.wf.providers[p] == Some(r)
  }

  /** What a limit lets through in some time at its steady rate. */
  function Flowed(r: RateLimit, time: real): real
    requires r.per > 0.0
  {
    time * (r.requests as real / r.per)
  }

  /** The rate bound on the steps of a run: between any two moments the executor calls, or those of
      one provider's tasks, number at most the requests of their limit, plus requests / per for
      each unit of time, plus MaxParallel; from the start of the run, without MaxParallel. */
  lemma RateKept(w: World, tr: seq<Sys>, acts: seq<Action>, provider: Option<string>, r: RateLimit, i: nat, j: nat)
    requires Sensible(w) && Run(w, tr, acts) && i <= j <= |acts| && LimitedTo(w, provider, r)
    ensures r.per > 0.0
    ensures var flowed := Flowed(r, tr[j].now - tr[i].now);
            && CallCount(w, acts, provider, i, j) as real <= r.requests as real + flowed + w.wf.maxParallel as real
            && (i == 0 ==> CallCount(w, acts, provider, i, j) as real <= r.requests as real + flowed)
  {
    hide *;
    var k := KeyOf(provider);
    AtStart(w, tr, acts, k);
    LimitMeans(w, provider, r);
    CountersExact(w, tr, acts, provider, i, j);
    CallWindow(w, tr, acts, k, i, j);
    CallsFromStart(w, tr, acts, k, j);
    FlowedIn(r, tr[i].now, tr[j].now);
  }

  lemma LimitMeans(w: World, provider: Option<string>, r: RateLimit)
    requires LimitedTo(w, provider, r)
    ensures Named(w, provider) && LimitOf(w, KeyOf(provider)) == Some(r)
  {
  }

  lemma AtStart(w: World, tr: seq<Sys>, acts: seq<Action>, k: Key)
    requires Run(w, tr, acts)
    ensures |tr| == |acts| + 1 && tr[0].now == 0.0 && Get(tr[0].calls, k) == 0
  {
    hide StepAt;
  }

  lemma FlowedIn(r: RateLimit, from: real, to: real)
    requires r.per > 0.0
    ensures Buckets.Inflow(ParamsOf(r), from, to) == Flowed(r, to - from)
  {
  }

  // ---------- what a limiter may not refuse ----------

  ghost predicate IsTake(w: World, a: Action, provider: Option<string>) {
    && a.Work?
    && match provider
       case None => a.move.TakeGlobal?
       case Some(p) => a.move.TakeProvider? && a.id in TaskMap(w.wf.tasks) && TaskMap(w.wf.tasks)[a.id].provider == p
  }

  ghost predicate IsRefusal(w: World, a: Action, provider: Option<string>) {
    && a.Work?
    && match provider
       case None => a.move.PollGlobal?
       case Some(p) => a.move.PollProvider? && a.id in TaskMap(w.wf.tasks) && TaskMap(w.wf.tasks)[a.id].provider == p
  }

  /** How many of the first n steps take a token. */
  ghost function TakeCount(w: World, acts: seq<Action>, provider: Option<string>, n: nat): nat
    requires n <= |acts|
  {
    if n == 0 then 0 else TakeCount(w, acts, provider, n - 1) + if IsTake(w, acts[n - 1], provider) then 1 else 0
  }

  lemma StepTakes(w: World, s: Sys, a: Action, provider: Option<string>)
    requires Enabled(w, s, a)
    ensures Get(Apply(w, s, a).taken, KeyOf(provider)) ==
            Get(s.taken, KeyOf(provider)) + if IsTake(w, a, provider) then 1 else 0
  {
    hide Moved, PolledBuckets, Scheduling.Apply, Scheduling.Enabled, CanMove, Resources, TaskMap;
  }

  lemma {:induction false} TakesExact(w: World, tr: seq<Sys>, acts: seq<Action>, provider: Option<string>, n: nat)
    requires Run(w, tr, acts) && n <= |acts|
    ensures Get(tr[n].taken, KeyOf(provider)) == TakeCount(w, acts, provider, n)
    decreases n
  {
    hide Apply, Enabled, IsTake, KeyOf;
    if n > 0 {
      TakesExact(w, tr, acts, provider, n - 1);
      assert StepAt(w, tr, acts, n - 1);
      StepTakes(w, tr[n - 1], acts[n - 1], provider);
    }
  }

  /** Tokens taken and tokens at hand never fall short of a full bucket. */
  ghost predicate Generous(s: Sys, k: Key, p: Buckets.Params) {
    BucketOk(s, k, p) && Get(s.taken, k) as real + Level(s, k, p) >= p.capacity
  }

  lemma WorkGenerous(w: World, s: Sys, id: Id, m: Move, k: Key, p: Buckets.Params)
    requires Limited(w, k, p) && Generous(s, k, p)
    requires id in s.workers && id in G(w) && CanMove(w, id, s.workers[id], m) && Resources(w, s, id, m)
    ensures Generous(WorkStep(w, s, id, m), k, p)
  {
    hide Moved, Buckets.LevelAt, Buckets.Polled, UsesProvider, TaskOf;
    PollEffect(p, s.buckets[k], s.now);
  }

  lemma TickGenerous(s: Sys, dt: real, k: Key, p: Buckets.Params)
    requires Buckets.Sane(p) && Generous(s, k, p) && dt >= 0.0
    ensures Generous(s.(now := s.now + dt), k, p)
  {
    var b := s.buckets[k];
    Buckets.InflowSplits(p, b.updated, s.now, s.now + dt);
    Buckets.InflowNonNegative(p, s.now, s.now + dt);
    hide Buckets.Inflow;
  }

  lemma StepGenerous(w: World, s: Sys, a: Action, k: Key, p: Buckets.Params)
    requires Limited(w, k, p) && Generous(s, k, p) && Enabled(w, s, a)
    ensures Generous(Apply(w, s, a), k, p)
  {
    assert Buckets.Sane(p);
    hide WorkStep, Limited, LimitOf, Buckets.LevelAt;
    match a {
      case Work(id, m) => WorkGenerous(w, s, id, m, k, p);
      case Tick(dt) => TickGenerous(s, dt, k, p);
      case _ =>
    }
  }

  lemma InitialGenerous(w: World, k: Key, p: Buckets.Params)
    requires Limited(w, k, p)
    ensures Generous(Init(w), k, p)
  {
    InitialBucket(w, k, p);
    Buckets.NoInflow(p, 0.0);
    hide Buckets.Inflow;
  }

  lemma {:induction false} RunGenerous(w: World, tr: seq<Sys>, acts: seq<Action>, k: Key, p: Buckets.Params, i: nat)
    requires Limited(w, k, p) && Run(w, tr, acts) && i < |tr|
    ensures Generous(tr[i], k, p)
    decreases i
  {
    hide Apply, Enabled, Limited, Init, Generous;
    if i == 0 {
      InitialGenerous(w, k, p);
    } else {
      RunGenerous(w, tr, acts, k, p, i - 1);
      assert StepAt(w, tr, acts, i - 1);
      StepGenerous(w, tr[i - 1], acts[i - 1], k, p);
    }
  }

  /** A limiter refuses nobody before it has granted as many tokens as it has requests. */
  lemma NoEarlyRefusal(w: World, tr: seq<Sys>, acts: seq<Action>, provider: Option<string>, r: RateLimit, n: nat)
    requires Sensible(w) && Run(w, tr, acts) && n < |acts| && LimitedTo(w, provider, r)
    requires IsRefusal(w, acts[n], provider)
    ensures TakeCount(w, acts, provider, n) >= r.requests
  {
    hide *;
    var k := KeyOf(provider);
    AtStart(w, tr, acts, k);
    LimitMeans(w, provider, r);
    LimitIsSane(w, k);
    RunGenerous(w, tr, acts, k, ParamsOf(r), n);
    TakesExact(w, tr, acts, provider, n);
    RefusedWhenLow(w, tr, acts, provider, r, n);
  }

  lemma RefusedWhenLow(w: World, tr: seq<Sys>, acts: seq<Action>, provider: Option<string>, r: RateLimit, n: nat)
    requires Run(w, tr, acts) && n < |acts| && IsRefusal(w, acts[n], provider) && r.per > 0.0
    requires LimitOf(w, KeyOf(provider)) == Some(r) && Generous(tr[n], KeyOf(provider), ParamsOf(r))
    ensures Get(tr[n].taken, KeyOf(provider)) >= r.requests
  {
    assert StepAt(w, tr, acts, n);
    hide Apply, LimitOf, Buckets.LevelAt, Get, TaskMap, Init;
  }
}
