/** Conservation of attempts, tokens and decisions over the whole engine: what the spans and the
    totals say is what the goroutines' moves have spent, in every interleaving, with any mix of
    error policies and with cancellation. */
module EngineTotals {
  import opened Values
  import opened Graphs
  import opened Workflows
  import opened Spans
  import Scheduling
  import SI = SchedulerInvariant
  import SP = SchedulerProperties
  import TaskExecution
  import Templates
  import opened Confluence
  import opened Engine
  import opened EngineInvariant
  import opened EngineRuns

  // ---------- what moves cost ----------

  /** Attempts begun, and tokens used. */
  datatype Bill = Bill(attempts: int, tokensIn: int, tokensOut: int)

  const NO_BILL := Bill(0, 0, 0)

  function Join(a: Bill, b: Bill): Bill {
    Bill(a.attempts + b.attempts, a.tokensIn + b.tokensIn, a.tokensOut + b.tokensOut)
  }

  function UsageBill(u: Option<Usage>): Bill {
    Bill(0, TaskExecution.TokensOf(u).0, TaskExecution.TokensOf(u).1)
  }

  function Resolved(w: World, id: Id, k: Worker): Option<Value>
    requires id in G(w)
  {
    Templates.Resolve(Obj(TaskOf(w, id).inputs), TaskExecution.ScopeOf(w.inputs, k.seen), w.json)
  }

  /** An executor call, an attempt cut off before its call, and inputs that do not resolve count
      as one attempt each; a call that returns adds the usage it reports. */
  function Charge(w: World, id: Id, k: Worker, m: Move): Bill
    requires id in G(w) && CanMove(w, id, k, m)
  {
    match m
    case ResolveInputs => if Resolved(w, id, k).None? then Bill(1, 0, 0) else NO_BILL
    case QuitAtPermit(_) => Bill(1, 0, 0)
    case QuitAtGlobal(_) => Bill(1, 0, 0)
    case QuitAtProvider(_) => Bill(1, 0, 0)
    case Call => Bill(1, 0, 0)
    case Return(_) => UsageBill(w.skill(id, k.inputs, k.pc.attempt).llm)
    case _ => NO_BILL
  }

  /** The decisions a move reports. */
  function Reported(w: World, id: Id, k: Worker, m: Move): seq<Decision>
    requires id in G(w) && CanMove(w, id, k, m)
  {
    if m.Return? then w.skill(id, k.inputs, k.pc.attempt).decisions else []
  }

  ghost predicate MovedAt(w: World, tr: seq<Sys>, acts: seq<Action>, n: nat, id: Id)
    requires n < |acts| && n < |tr|
  {
    && acts[n].Work? && acts[n].id == id && id in tr[n].workers && id in G(w)
    && CanMove(w, id, tr[n].workers[id], acts[n].move)
  }

  /** What the moves of one task have cost in the first n steps of a run ... */
  ghost function Ledger(w: World, tr: seq<Sys>, acts: seq<Action>, n: nat, id: Id): Bill
    requires n <= |acts| && n <= |tr|
  {
    if n == 0 then NO_BILL
    else if MovedAt(w, tr, acts, n - 1, id)
    then Join(Ledger(w, tr, acts, n - 1, id), Charge(w, id, tr[n - 1].workers[id], acts[n - 1].move))
    else Ledger(w, tr, acts, n - 1, id)
  }

  /** ... and the decisions they have reported, in order. */
  ghost function Journal(w: World, tr: seq<Sys>, acts: seq<Action>, n: nat, id: Id): seq<Decision>
    requires n <= |acts| && n <= |tr|
  {
    if n == 0 then []
    else if MovedAt(w, tr, acts, n - 1, id)
    then Journal(w, tr, acts, n - 1, id) + Reported(w, id, tr[n - 1].workers[id], acts[n - 1].move)
    else Journal(w, tr, acts, n - 1, id)
  }

  // ---------- what spans say ----------

  function SpanBill(s: Span): Bill {
    UsageBill(s.llm).(attempts := s.attempts)
  }

  /** A goroutine between its permit and its call has counted the attempt but not made the call. */
  function Pending(pc: Pc): int {
    if pc.WantGlobal? || pc.WantProvider? || pc.MayCall? then 1 else 0
  }

  function WorkerBill(k: Worker): Bill {
    SpanBill(k.span).(attempts := k.span.attempts - Pending(k.pc))
  }

  /** What the span of a task says so far, wherever the span is. */
  function Standing(s: Sys, id: Id): Bill {
    if id in s.workers then WorkerBill(s.workers[id])
    else if id in s.main.spans then SpanBill(s.main.spans[id])
    else NO_BILL
  }

  function DecisionsSoFar(s: Sys, id: Id): seq<Decision> {
    if id in s.workers then s.workers[id].span.decisions
    else if id in s.main.spans then s.main.spans[id].decisions
    else []
  }

  // ---------- attempts are counted from one ----------

  /** A goroutine past its first permit has begun an attempt, and its span has the number. */
  predicate Counted(k: Worker) {
    match k.pc
    case Start => k.span == TaskExecution.FreshSpan(k.span.id)
    case WantPermit(a) => a >= 1 && k.span.attempts == a - 1
    case WantGlobal(a) => a >= 1 && k.span.attempts == a
    case WantProvider(a) => a >= 1 && k.span.attempts == a
    case MayCall(a) => a >= 1 && k.span.attempts == a
    case Calling(a) => a >= 1 && k.span.attempts == a
    case Backoff(a) => a >= 1 && k.span.attempts == a
    case Sending => k.span.attempts >= 1
    case Sent => k.span.attempts >= 1
  }

  lemma MoveCounts(w: World, id: Id, k: Worker, m: Move)
    requires id in G(w) && MaxRetries(w, id) >= 0 && CanMove(w, id, k, m) && Counted(k)
    ensures Counted(Moved(w, id, k, m))
  {
    hide Templates.Resolve, DependencyGraph, TaskExecution.ScopeOf, MaxRetries;
  }

  lemma UsageAdds(a: Option<Usage>, b: Option<Usage>)
    ensures UsageBill(TaskExecution.AddUsage(a, b)) == Join(UsageBill(a), UsageBill(b))
  {
  }

  lemma ReturnMoves(w: World, id: Id, k: Worker, d: nat)
    requires id in G(w) && k.pc.Calling?
    ensures var v, r := Moved(w, id, k, Return(d)), w.skill(id, k.inputs, k.pc.attempt);
            && Pending(v.pc) == 0 && v.span.attempts == k.span.attempts
            && v.span.llm == TaskExecution.AddUsage(k.span.llm, r.llm)
            && v.span.decisions == k.span.decisions + r.decisions
  {
    hide TaskExecution.AddUsage, TaskExecution.Failing, TaskExecution.Message, DependencyGraph, MaxRetries, Templates.Resolve;
  }

  lemma ReturnCharges(w: World, id: Id, k: Worker, d: nat)
    requires id in G(w) && k.pc.Calling?
    ensures WorkerBill(Moved(w, id, k, Return(d))) == Join(WorkerBill(k), Charge(w, id, k, Return(d)))
    ensures Moved(w, id, k, Return(d)).span.decisions == k.span.decisions + Reported(w, id, k, Return(d))
  {
    hide WorkerBill, Moved, G, UsageBill, Join;
    ReturnMoves(w, id, k, d);
    BillGrows(k, Moved(w, id, k, Return(d)), w.skill(id, k.inputs, k.pc.attempt).llm);
  }

  lemma BillGrows(k: Worker, v: Worker, u: Option<Usage>)
    requires k.pc.Calling? && Pending(v.pc) == 0 && v.span.attempts == k.span.attempts
    requires v.span.llm == TaskExecution.AddUsage(k.span.llm, u)
    ensures WorkerBill(v) == Join(WorkerBill(k), UsageBill(u))
  {
    UsageAdds(k.span.llm, u);
    UsageFree(u);
    hide UsageBill, TaskExecution.AddUsage;
  }

  lemma UsageFree(u: Option<Usage>)
    ensures UsageBill(u).attempts == 0 && UsageBill(None) == NO_BILL
  {
  }

  lemma ResolveMoves(w: World, id: Id, k: Worker)
    requires id in G(w) && k.pc.Start?
    ensures var v := Moved(w, id, k, ResolveInputs);
            && v.span == (if Resolved(w, id, k).None? then TaskExecution.UnresolvedSpan(id) else TaskExecution.FreshSpan(id))
            && Pending(v.pc) == 0
  {
    hide Templates.Resolve, DependencyGraph, TaskExecution.ScopeOf, MaxRetries, TaskOf;
  }

  lemma ResolveCharges(w: World, id: Id, k: Worker)
    requires id in G(w) && k.pc.Start? && Counted(k)
    ensures WorkerBill(Moved(w, id, k, ResolveInputs)) == Join(WorkerBill(k), Charge(w, id, k, ResolveInputs))
    ensures Moved(w, id, k, ResolveInputs).span.decisions == k.span.decisions + Reported(w, id, k, ResolveInputs)
  {
    hide WorkerBill, Moved, G, Join, Resolved;
    ResolveMoves(w, id, k);
    FirstBill(id, k, Moved(w, id, k, ResolveInputs));
  }

  lemma FirstBill(id: Id, k: Worker, v: Worker)
    requires k.pc.Start? && Counted(k) && Pending(v.pc) == 0
    ensures v.span == TaskExecution.FreshSpan(id) ==> WorkerBill(v) == Join(WorkerBill(k), NO_BILL)
    ensures v.span == TaskExecution.UnresolvedSpan(id) ==> WorkerBill(v) == Join(WorkerBill(k), Bill(1, 0, 0))
    ensures v.span == TaskExecution.FreshSpan(id) || v.span == TaskExecution.UnresolvedSpan(id) ==>
              v.span.decisions == k.span.decisions == []
  {
  }

  /** Each move changes what its goroutine's span says by what the move costs. */
  lemma MoveCharges(w: World, id: Id, k: Worker, m: Move)
    requires id in G(w) && CanMove(w, id, k, m) && Counted(k)
    ensures WorkerBill(Moved(w, id, k, m)) == Join(WorkerBill(k), Charge(w, id, k, m))
    ensures Moved(w, id, k, m).span.decisions == k.span.decisions + Reported(w, id, k, m)
  {
    match m {
      case ResolveInputs => ResolveCharges(w, id, k);
      case Return(d) => ReturnCharges(w, id, k, d);
      case _ => StillCharges(w, id, k, m);
    }
    hide *;
  }

  /** The moves that neither resolve the inputs nor end a call. */
  lemma StillCharges(w: World, id: Id, k: Worker, m: Move)
    requires id in G(w) && CanMove(w, id, k, m) && Counted(k) && !m.ResolveInputs? && !m.Return?
    ensures WorkerBill(Moved(w, id, k, m)) == Join(WorkerBill(k), Charge(w, id, k, m))
    ensures Moved(w, id, k, m).span.decisions == k.span.decisions + Reported(w, id, k, m)
  {
    hide DependencyGraph, MaxRetries, UsesProvider, TaskOf, UsageBill;
  }

  /** Every goroutine is counted, and every span in the report is that of an executed task or a
      mark. */
  ghost predicate AllCounted(s: Sys) {
    && (forall id :: id in s.workers ==> Counted(s.workers[id]))
    && (forall id :: id in s.main.spans ==> s.main.spans[id].attempts >= 1 || s.main.spans[id] == SkippedSpan(id))
  }

  lemma WorkCounts(w: World, s: Sys, id: Id, m: Move)
    requires RetriesMakeSense(w) && AllCounted(s) && id in s.workers && id in G(w) && CanMove(w, id, s.workers[id], m)
    ensures AllCounted(WorkStep(w, s, id, m))
  {
    MoveCounts(w, id, s.workers[id], m);
    hide Counted, Moved, DependencyGraph;
  }

  lemma HeadCounted(w: World, s: Sys)
    requires EInv(w, s) && AllCounted(s) && s.done != []
    ensures s.done[0].attempts >= 1
  {
    hide SI.Inv;
    assert s.workers[s.done[0].id].span == s.done[0];
  }

  lemma MainCounts(w: World, s: Sys, a: Action)
    requires EInv(w, s) && AllCounted(s) && Enabled(w, s, a) && (a.Dispatch? || a.Receive? || a.EndDrain? || a.Complete?)
    ensures AllCounted(Apply(w, s, a))
  {
    hide EInv, Enabled, Apply, Counted;
    var t := Apply(w, s, a);
    forall id
      ensures id in t.workers ==> Counted(t.workers[id])
      ensures id in t.main.spans ==> t.main.spans[id].attempts >= 1 || t.main.spans[id] == SkippedSpan(id)
    {
      MainAt(w, s, a, id);
      NewCounted(id, s.main.results);
      if a.Receive? && s.done != [] { HeadCounted(w, s); }
    }
  }

  lemma NewCounted(id: Id, seen: map<Id, Value>)
    ensures Counted(NewWorker(id, seen))
  {
  }

  lemma StepCounts(w: World, s: Sys, a: Action)
    requires EInv(w, s) && RetriesMakeSense(w) && AllCounted(s) && Enabled(w, s, a)
    ensures AllCounted(Apply(w, s, a))
  {
    hide EInv, Enabled, WorkStep, DependencyGraph, AllCounted;
    match a {
      case Work(id, m) => WorkEnabled(w, s, id, m); WorkCounts(w, s, id, m); WorkApply(w, s, id, m);
      case Cancel => QuietCounts(s, Apply(w, s, a));
      case Tick(dt) => QuietCounts(s, Apply(w, s, a));
      case _ => MainCounts(w, s, a);
    }
  }

  lemma QuietCounts(s: Sys, t: Sys)
    requires AllCounted(s) && t.workers == s.workers && t.main == s.main
    ensures AllCounted(t)
  {
  }

  lemma {:induction false} RunCounts(w: World, tr: seq<Sys>, acts: seq<Action>, i: nat)
    requires Sensible(w) && RetriesMakeSense(w) && Run(w, tr, acts) && i < |tr|
    ensures AllCounted(tr[i])
    decreases i
  {
    hide Sensible, RetriesMakeSense, AllCounted, Apply, Enabled, EInv, Init;
    if i == 0 {
      StartCounts(w);
    } else {
      RunCounts(w, tr, acts, i - 1);
      RunEInv(w, tr, acts, i - 1);
      assert StepAt(w, tr, acts, i - 1);
      StepCounts(w, tr[i - 1], acts[i - 1]);
    }
  }

  lemma StartCounts(w: World)
    ensures AllCounted(Init(w))
  {
  }

  // ---------- every task's account ----------

  /** A step changes the account of the task that moves, by what the move costs, and no other. */
  lemma StepStanding(w: World, s: Sys, a: Action, id: Id)
    requires EInv(w, s) && RetriesMakeSense(w) && AllCounted(s) && Enabled(w, s, a)
    ensures var t := Apply(w, s, a);
            if a.Work? && a.id == id
            then id in s.workers && id in G(w) && CanMove(w, id, s.workers[id], a.move)
                 && Standing(t, id) == Join(Standing(s, id), Charge(w, id, s.workers[id], a.move))
                 && DecisionsSoFar(t, id) == DecisionsSoFar(s, id) + Reported(w, id, s.workers[id], a.move)
            else Standing(t, id) == Standing(s, id) && DecisionsSoFar(t, id) == DecisionsSoFar(s, id)
  {
    hide EInv, Enabled, DependencyGraph, AllCounted, Charge, Reported, WorkerBill, SpanBill, WorkStep, RetriesMakeSense;
    match a {
      case Work(x, m) => WorkStanding(w, s, x, m, id);
      case Cancel =>
      case Tick(dt) =>
      case _ => MainStanding(w, s, a, id);
    }
  }

  lemma WorkStanding(w: World, s: Sys, x: Id, m: Move, id: Id)
    requires AllCounted(s) && Enabled(w, s, Work(x, m))
    ensures x in s.workers && x in G(w) && CanMove(w, x, s.workers[x], m)
    ensures var t := Apply(w, s, Work(x, m));
            if x == id
            then Standing(t, id) == Join(Standing(s, id), Charge(w, id, s.workers[id], m))
                 && DecisionsSoFar(t, id) == DecisionsSoFar(s, id) + Reported(w, id, s.workers[id], m)
            else Standing(t, id) == Standing(s, id) && DecisionsSoFar(t, id) == DecisionsSoFar(s, id)
  {
    WorkEnabled(w, s, x, m);
    WorkApply(w, s, x, m);
    WorkMoves(w, s, x, m);
    assert Counted(s.workers[x]);
    hide Moved, G, Charge, Reported, WorkerBill, SpanBill, Counted, AllCounted, Resources, Enabled, Apply, WorkStep, CanMove;
    MoveCharges(w, x, s.workers[x], m);
  }

  lemma MainStanding(w: World, s: Sys, a: Action, id: Id)
    requires EInv(w, s) && AllCounted(s) && Enabled(w, s, a) && (a.Dispatch? || a.Receive? || a.EndDrain? || a.Complete?)
    ensures Standing(Apply(w, s, a), id) == Standing(s, id) && DecisionsSoFar(Apply(w, s, a), id) == DecisionsSoFar(s, id)
  {
    hide *;
    MainAt(w, s, a, id);
    var t := Apply(w, s, a);
    if a == Dispatch(id) {
      StandingStarts(s, t, id);
    } else if a.Receive? && s.done != [] && s.done[0].id == id {
      StandingMoves(s, t, id);
    } else {
      StandingStays(s, t, id);
    }
  }

  lemma StandingStarts(s: Sys, t: Sys, id: Id)
    requires id !in s.workers && id !in s.main.spans && id in t.workers && t.workers[id] == NewWorker(id, s.main.results)
    ensures Standing(t, id) == Standing(s, id) && DecisionsSoFar(t, id) == DecisionsSoFar(s, id)
  {
  }

  lemma StandingMoves(s: Sys, t: Sys, id: Id)
    requires id in s.workers && s.workers[id].pc.Sent?
    requires id !in t.workers && id in t.main.spans && t.main.spans[id] == s.workers[id].span
    ensures Standing(t, id) == Standing(s, id) && DecisionsSoFar(t, id) == DecisionsSoFar(s, id)
  {
    hide UsageBill;
  }

  lemma StandingStays(s: Sys, t: Sys, id: Id)
    requires (id in t.workers <==> id in s.workers) && (id in s.workers ==> t.workers[id] == s.workers[id])
    requires id in s.main.spans ==> id in t.main.spans && t.main.spans[id] == s.main.spans[id]
    requires id !in s.main.spans && id in t.main.spans ==> t.main.spans[id] == SkippedSpan(id)
    ensures Standing(t, id) == Standing(s, id) && DecisionsSoFar(t, id) == DecisionsSoFar(s, id)
  {
  }

  /** Every task's account balances in every state of every run: its span, wherever it is, counts
      one attempt for each executor call, each attempt cut off before its call, and inputs that
      did not resolve; its tokens are the sums over the calls that returned, its decisions their
      ordered concatenation. */
  lemma {:induction false} TaskConserved(w: World, tr: seq<Sys>, acts: seq<Action>, i: nat, id: Id)
    requires Sensible(w) && RetriesMakeSense(w) && Run(w, tr, acts) && i < |tr|
    ensures Standing(tr[i], id) == Ledger(w, tr, acts, i, id)
    ensures DecisionsSoFar(tr[i], id) == Journal(w, tr, acts, i, id)
    decreases i
  {
    hide Sensible, RetriesMakeSense, AllCounted, Apply, Enabled, EInv, Standing, DecisionsSoFar, Charge, Reported, G, Init;
    if i == 0 {
      StartStanding(w, id);
    } else {
      TaskConserved(w, tr, acts, i - 1, id);
      RunEInv(w, tr, acts, i - 1);
      RunCounts(w, tr, acts, i - 1);
      assert StepAt(w, tr, acts, i - 1);
      StepStanding(w, tr[i - 1], acts[i - 1], id);
    }
  }

  lemma StartStanding(w: World, id: Id)
    ensures Standing(Init(w), id) == NO_BILL && DecisionsSoFar(Init(w), id) == []
  {
  }

  // ---------- the run's account ----------

  /** What all moves together have cost in the first n steps. */
  ghost function Spent(w: World, tr: seq<Sys>, acts: seq<Action>, n: nat): Bill
    requires n <= |acts| && n <= |tr|
  {
    if n == 0 then NO_BILL
    else
      var a := acts[n - 1];
      if a.Work? && MovedAt(w, tr, acts, n - 1, a.id)
      then Join(Spent(w, tr, acts, n - 1), Charge(w, a.id, tr[n - 1].workers[a.id], a.move))
      else Spent(w, tr, acts, n - 1)
  }

  function Standings(order: seq<Id>, s: Sys): Bill {
    if order == [] then NO_BILL else Join(Standing(s, order[0]), Standings(order[1..], s))
  }

  /** The part of the standings that goroutines hold whose spans have not been received. */
  function Held(order: seq<Id>, s: Sys): Bill {
    if order == [] then NO_BILL
    else Join(if order[0] in s.workers then WorkerBill(s.workers[order[0]]) else NO_BILL, Held(order[1..], s))
  }

  /** How many spans are those of executed tasks. */
  function Executed(order: seq<Id>, spans: map<Id, Span>): nat {
    if order == [] then 0
    else (if order[0] in spans && spans[order[0]].attempts >= 1 then 1 else 0) + Executed(order[1..], spans)
  }

  lemma {:induction false} StandingsSame(order: seq<Id>, s: Sys, t: Sys)
    requires forall id :: id in order ==> Standing(t, id) == Standing(s, id)
    ensures Standings(order, t) == Standings(order, s)
    decreases |order|
  {
    hide Standing;
    if order != [] { StandingsSame(order[1..], s, t); }
  }

  lemma {:induction false} StandingsChange(order: seq<Id>, s: Sys, t: Sys, x: Id, cost: Bill)
    requires SP.Distinct(order) && x in order && Standing(t, x) == Join(Standing(s, x), cost)
    requires forall id :: id != x ==> Standing(t, id) == Standing(s, id)
    ensures Standings(order, t) == Join(Standings(order, s), cost)
    decreases |order|
  {
    hide Standing, SP.Distinct;
    SP.DistinctTail(order);
    if order[0] == x {
      StandingsSame(order[1..], s, t);
    } else {
      StandingsChange(order[1..], s, t, x, cost);
    }
  }

  lemma StepStandings(w: World, order: seq<Id>, s: Sys, a: Action)
    requires EInv(w, s) && RetriesMakeSense(w) && AllCounted(s) && Enabled(w, s, a)
    requires SP.Distinct(order) && (forall id :: id in order <==> id in G(w))
    ensures a.Work? ==> a.id in s.workers && a.id in G(w) && CanMove(w, a.id, s.workers[a.id], a.move)
    ensures Standings(order, Apply(w, s, a)) ==
            if a.Work? then Join(Standings(order, s), Charge(w, a.id, s.workers[a.id], a.move)) else Standings(order, s)
  {
    hide EInv, Enabled, Apply, AllCounted, Charge, Standing, Standings, SP.Distinct, G, RetriesMakeSense, Reported;
    hide DecisionsSoFar, CanMove;
    var t := Apply(w, s, a);
    forall id ensures (a.Work? && a.id == id) || Standing(t, id) == Standing(s, id) {
      StepStanding(w, s, a, id);
    }
    if a.Work? {
      StepStanding(w, s, a, a.id);
      StandingsChange(order, s, t, a.id, Charge(w, a.id, s.workers[a.id], a.move));
    } else {
      StandingsSame(order, s, t);
    }
  }

  lemma {:induction false} StandingsAreSpent(w: World, order: seq<Id>, tr: seq<Sys>, acts: seq<Action>, i: nat)
    requires Sensible(w) && RetriesMakeSense(w) && Run(w, tr, acts) && i < |tr|
    requires SP.Distinct(order) && (forall id :: id in order <==> id in G(w))
    ensures Standings(order, tr[i]) == Spent(w, tr, acts, i)
    decreases i
  {
    hide Sensible, RetriesMakeSense, AllCounted, Apply, Enabled, EInv, Standings, Charge, G, Init, SP.Distinct, CanMove;
    if i == 0 {
      StartStandings(w, order);
    } else {
      StandingsAreSpent(w, order, tr, acts, i - 1);
      RunEInv(w, tr, acts, i - 1);
      RunCounts(w, tr, acts, i - 1);
      assert StepAt(w, tr, acts, i - 1);
      StepStandings(w, order, tr[i - 1], acts[i - 1]);
    }
  }

  lemma {:induction false} StartStandings(w: World, order: seq<Id>)
    ensures Standings(order, Init(w)) == NO_BILL
    decreases |order|
  {
    if order != [] { StartStandings(w, order[1..]); }
  }

  ghost predicate Apart(s: Sys) {
    && AllCounted(s)
    && (forall id :: id in s.workers ==> id !in s.main.spans)
  }

  lemma StandingSplit(s: Sys, id: Id)
    requires Apart(s)
    ensures var tally := SP.Tally(s.main.spans, id);
            Standing(s, id) ==
            Join(if id in s.workers then WorkerBill(s.workers[id]) else NO_BILL,
                 Bill(tally.retries + (if id in s.main.spans && s.main.spans[id].attempts >= 1 then 1 else 0),
                      tally.tokensIn, tally.tokensOut))
  {
    hide Counted, WorkerBill;
  }

  lemma SumsUnfold(order: seq<Id>, s: Sys)
    requires order != []
    ensures var id, rest := order[0], order[1..];
            && SP.SumOver(order, s.main.spans) == Plus(SP.Tally(s.main.spans, id), SP.SumOver(rest, s.main.spans))
            && Standings(order, s) == Join(Standing(s, id), Standings(rest, s))
            && Held(order, s) == Join(if id in s.workers then WorkerBill(s.workers[id]) else NO_BILL, Held(rest, s))
            && Executed(order, s.main.spans) ==
               (if id in s.main.spans && s.main.spans[id].attempts >= 1 then 1 else 0) + Executed(rest, s.main.spans)
  {
    hide WorkerBill, Standing, SP.Tally;
  }

  /** The standings are what goroutines hold and what the report's spans add up to. */
  lemma {:induction false} StandingsSplit(order: seq<Id>, s: Sys)
    requires Apart(s)
    ensures var sums, held := SP.SumOver(order, s.main.spans), Held(order, s);
            Standings(order, s) ==
            Join(held, Bill(sums.retries + Executed(order, s.main.spans), sums.tokensIn, sums.tokensOut))
    decreases |order|
  {
    if order == [] {
      SumsOfNone(s);
      hide *;
    } else {
      hide *;
      var id, rest := order[0], order[1..];
      StandingSplit(s, id);
      StandingsSplit(rest, s);
      SumsUnfold(order, s);
      JoinColumns(if id in s.workers then WorkerBill(s.workers[id]) else NO_BILL, SP.Tally(s.main.spans, id),
                  if id in s.main.spans && s.main.spans[id].attempts >= 1 then 1 else 0,
                  Held(rest, s), SP.SumOver(rest, s.main.spans), Executed(rest, s.main.spans));
    }
  }

  lemma SumsOfNone(s: Sys)
    ensures Standings([], s) == Join(Held([], s), Bill(SP.SumOver([], s.main.spans).retries + Executed([], s.main.spans),
                                                       SP.SumOver([], s.main.spans).tokensIn,
                                                       SP.SumOver([], s.main.spans).tokensOut))
  {
  }

  lemma JoinColumns(held: Bill, tally: Totals, ran: nat, heldRest: Bill, sums: Totals, ranRest: nat)
    ensures var all := Plus(tally, sums);
            Join(Join(held, Bill(tally.retries + ran, tally.tokensIn, tally.tokensOut)),
                 Join(heldRest, Bill(sums.retries + ranRest, sums.tokensIn, sums.tokensOut))) ==
            Join(Join(held, heldRest), Bill(all.retries + (ran + ranRest), all.tokensIn, all.tokensOut))
  {
  }

  lemma RunApart(w: World, tr: seq<Sys>, acts: seq<Action>, i: nat)
    requires Sensible(w) && RetriesMakeSense(w) && Run(w, tr, acts) && i < |tr|
    ensures Apart(tr[i])
    ensures tr[i].main.phase.Finished? ==> tr[i].workers == map[]
  {
    RunCounts(w, tr, acts, i);
    RunEInv(w, tr, acts, i);
    hide AllCounted, SI.ResultsMatch, SI.CountsExact, SI.StartedIffZero, SI.SkipClosed, SI.SkippedBlocked, SI.SnapshotsOk;
    hide ChannelOk, PermitsOk, Run;
    assert tr[i].main.phase.Finished? ==> tr[i].workers.Keys == {};
  }

  lemma {:induction false} NothingHeld(order: seq<Id>, s: Sys)
    requires s.workers == map[]
    ensures Held(order, s) == NO_BILL
    decreases |order|
  {
    if order != [] { NothingHeld(order[1..], s); }
  }

  /** The main loop receives spans of executed tasks only. */
  lemma {:induction false} MainAttempted(w: World, tr: seq<Sys>, acts: seq<Action>, n: nat)
    requires Sensible(w) && RetriesMakeSense(w) && Run(w, tr, acts) && n <= |acts|
    ensures SP.Attempted(MainActs(tr, acts, n))
    decreases n
  {
    hide EInv, Apply, Enabled, Sensible, RetriesMakeSense, AllCounted;
    if n > 0 {
      MainAttempted(w, tr, acts, n - 1);
      RunEInv(w, tr, acts, n - 1);
      RunCounts(w, tr, acts, n - 1);
      assert StepAt(w, tr, acts, n - 1);
      if acts[n - 1].Receive? && tr[n - 1].done != [] { HeadCounted(w, tr[n - 1]); }
    }
  }

  /** The totals are the sums over the spans of the report: in every state, with what a drain
      leaves out; before a fatal failure, as they stand. */
  lemma TotalsOverSpans(w: World, order: seq<Id>, tr: seq<Sys>, acts: seq<Action>, i: nat)
    requires Sensible(w) && RetriesMakeSense(w) && Topological(G(w), order) && Run(w, tr, acts) && i < |tr|
    ensures Plus(tr[i].main.totals, SP.Drained(MainActs(tr, acts, i))) == SP.SumOver(order, tr[i].main.spans)
    ensures !tr[i].main.runFailed ==> SP.Drained(MainActs(tr, acts, i)) == NO_TOTALS
  {
    RunRefines(w, tr, acts, i);
    MainAttempted(w, tr, acts, i);
    SoundConfig(w);
    var ms := MainActs(tr, acts, i);
    var main :| Scheduling.Run(C(w), main, ms) && main[|ms|] == tr[i].main;
    hide *;
    assert ms[..|ms|] == ms;
    OrderCovers(w, order);
    MainTotals(C(w), order, main, ms);
  }

  lemma OrderCovers(w: World, order: seq<Id>)
    requires Topological(G(w), order)
    ensures SP.Distinct(order) && (forall id :: id in order <==> id in G(w)) && C(w).g == G(w)
  {
  }

  lemma MainTotals(c: Scheduling.Config, order: seq<Id>, main: seq<Scheduling.State>, ms: seq<Scheduling.Action>)
    requires SI.Sound(c) && Scheduling.Run(c, main, ms) && SP.Attempted(ms)
    requires SP.Distinct(order) && (forall id :: id in order <==> id in c.g)
    ensures Plus(main[|ms|].totals, SP.Drained(ms)) == SP.SumOver(order, main[|ms|].spans)
    ensures !main[|ms|].runFailed ==> SP.Drained(ms) == NO_TOTALS
  {
    assert ms[..|ms|] == ms;
    SP.TotalsAreSums(c, order, main, ms, |ms|);
    SP.NothingDrained(c, main, ms, |ms|);
  }

  /** Conservation over the whole run.  In every state of every interleaving, the totals, what a
      drain leaves out of them and what unreceived goroutines hold add up to what the moves have
      spent: the tokens of all calls that returned, and for retries, once each executed task's
      first attempt is added, all calls, cut-off attempts and unresolved inputs. */
  lemma TotalsConserved(w: World, order: seq<Id>, tr: seq<Sys>, acts: seq<Action>, i: nat)
    requires Sensible(w) && RetriesMakeSense(w) && Topological(G(w), order) && Run(w, tr, acts) && i < |tr|
    ensures var counted := Plus(tr[i].main.totals, SP.Drained(MainActs(tr, acts, i)));
            var held, spent := Held(order, tr[i]), Spent(w, tr, acts, i);
            && counted.tokensIn + held.tokensIn == spent.tokensIn
            && counted.tokensOut + held.tokensOut == spent.tokensOut
            && counted.retries + Executed(order, tr[i].main.spans) + held.attempts == spent.attempts
    ensures !tr[i].main.runFailed ==> SP.Drained(MainActs(tr, acts, i)) == NO_TOTALS
    ensures tr[i].main.phase.Finished? ==> Held(order, tr[i]) == NO_BILL
  {
    hide Sensible, RetriesMakeSense, Topological, Run, SP.SumOver, Held, Executed, Spent, Standings, MainActs, Plus, SP.Drained;
    OrderCovers(w, order);
    TotalsOverSpans(w, order, tr, acts, i);
    StandingsAreSpent(w, order, tr, acts, i);
    RunApart(w, tr, acts, i);
    StandingsSplit(order, tr[i]);
    if tr[i].main.phase.Finished? { NothingHeld(order, tr[i]); }
  }
}
