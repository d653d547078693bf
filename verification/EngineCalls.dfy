/** The executor calls of an engine run, and the transport that carries them: no attempt is ever
    called twice, so invocation ids are used once and no answer can miss its call. */
module EngineCalls {
  import opened Values
  import opened Graphs
  import TaskExecution
  import Templates
  import opened Confluence
  import opened Engine
  import opened EngineInvariant
  import Correlation

  /** Step i is the executor call of one attempt of a task. */
  ghost predicate CallAt(tr: seq<Sys>, acts: seq<Action>, i: nat, id: Id, attempt: nat) {
    i < |acts| && i < |tr| && acts[i] == Work(id, Call) && id in tr[i].workers && tr[i].workers[id].pc == MayCall(attempt)
  }

  /** The call of this attempt has been made, or never will be. */
  predicate Beyond(pc: Pc, attempt: nat) {
    match pc
    case Start => false
    case WantPermit(a) => a > attempt
    case WantGlobal(a) => a > attempt
    case WantProvider(a) => a > attempt
    case MayCall(a) => a > attempt
    case Calling(a) => a >= attempt
    case Backoff(a) => a >= attempt
    case Sending => true
    case Sent => true
  }

  predicate Past(s: Sys, id: Id, attempt: nat) {
    if id in s.workers then Beyond(s.workers[id].pc, attempt) else id in s.main.spans
  }

  lemma MoveBeyond(w: World, id: Id, k: Worker, m: Move, attempt: nat)
    requires id in G(w) && CanMove(w, id, k, m)
    ensures Beyond(k.pc, attempt) ==> Beyond(Moved(w, id, k, m).pc, attempt)
    ensures m.Call? && k.pc == MayCall(attempt) ==> !Beyond(k.pc, attempt) && Beyond(Moved(w, id, k, m).pc, attempt)
  {
    hide Templates.Resolve, TaskExecution.AfterCall, MaxRetries, UsesProvider, G, TaskOf;
  }

  lemma WorkPast(w: World, s: Sys, x: Id, m: Move, id: Id, attempt: nat)
    requires Enabled(w, s, Work(x, m))
    ensures Past(s, id, attempt) ==> Past(Apply(w, s, Work(x, m)), id, attempt)
    ensures x == id && m.Call? && id in s.workers && s.workers[id].pc == MayCall(attempt) ==>
              !Past(s, id, attempt) && Past(Apply(w, s, Work(x, m)), id, attempt)
  {
    WorkEnabled(w, s, x, m);
    WorkApply(w, s, x, m);
    hide Enabled, Apply, Moved, PolledBuckets, CanMove, Resources, G, Beyond;
    MoveBeyond(w, x, s.workers[x], m, attempt);
  }

  lemma StepPast(w: World, s: Sys, a: Action, id: Id, attempt: nat)
    requires EInv(w, s) && Enabled(w, s, a) && Past(s, id, attempt)
    ensures Past(Apply(w, s, a), id, attempt)
  {
    hide EInv, Enabled, G, Beyond, WorkStep, C;
    match a {
      case Work(x, m) => WorkPast(w, s, x, m, id, attempt);
      case Cancel =>
      case Tick(dt) =>
      case _ => MainPast(w, s, a, id, attempt);
    }
  }

  lemma MainPast(w: World, s: Sys, a: Action, id: Id, attempt: nat)
    requires EInv(w, s) && Enabled(w, s, a) && (a.Dispatch? || a.Receive? || a.EndDrain? || a.Complete?)
    requires Past(s, id, attempt)
    ensures Past(Apply(w, s, a), id, attempt)
  {
    hide EInv, Enabled, Apply, Beyond;
    MainAt(w, s, a, id);
  }

  lemma {:induction false} RunPast(w: World, tr: seq<Sys>, acts: seq<Action>, i: nat, j: nat, id: Id, attempt: nat)
    requires Sensible(w) && Run(w, tr, acts) && i <= j < |tr| && Past(tr[i], id, attempt)
    ensures Past(tr[j], id, attempt)
    decreases j
  {
    hide EInv, Sensible, Enabled, Apply, Past, Init;
    if i < j {
      RunPast(w, tr, acts, i, j - 1, id, attempt);
      RunEInv(w, tr, acts, j - 1);
      assert StepAt(w, tr, acts, j - 1);
      StepPast(w, tr[j - 1], acts[j - 1], id, attempt);
    }
  }

  lemma CallPasses(w: World, tr: seq<Sys>, acts: seq<Action>, i: nat, id: Id, attempt: nat)
    requires Run(w, tr, acts) && CallAt(tr, acts, i, id, attempt)
    ensures !Past(tr[i], id, attempt) && Past(tr[i + 1], id, attempt)
  {
    assert StepAt(w, tr, acts, i);
    hide Enabled, Apply, Past;
    WorkPast(w, tr[i], id, Call, id, attempt);
  }

  /** In every interleaving each attempt of a task makes one executor call at most. */
  lemma CalledOnce(w: World, tr: seq<Sys>, acts: seq<Action>, i: nat, j: nat, id: Id, attempt: nat)
    requires Sensible(w) && Run(w, tr, acts) && CallAt(tr, acts, i, id, attempt) && CallAt(tr, acts, j, id, attempt)
    ensures i == j
  {
    hide Sensible, StepAt, Past;
    CallPasses(w, tr, acts, i, id, attempt);
    CallPasses(w, tr, acts, j, id, attempt);
    if i < j { RunPast(w, tr, acts, i + 1, j, id, attempt); }
    if j < i { RunPast(w, tr, acts, j + 1, i, id, attempt); }
  }

  // ---------- invocation ids ----------

  /** The id of the invocation that step i hands to the transport, if it is a call. */
  ghost function InvokedAt(run: string, tr: seq<Sys>, acts: seq<Action>, i: nat): Option<string>
    requires i < |acts| && i < |tr|
  {
    if acts[i].Work? && acts[i].move.Call? && acts[i].id in tr[i].workers && tr[i].workers[acts[i].id].pc.MayCall?
    then Some(Correlation.InvocationId(run, acts[i].id, tr[i].workers[acts[i].id].pc.attempt))
    else None
  }

  /** No two calls of a run share an invocation id, even if task ids contain dashes. */
  lemma InvocationsDiffer(w: World, run: string, tr: seq<Sys>, acts: seq<Action>, i: nat, j: nat)
    requires Sensible(w) && Run(w, tr, acts) && i < |acts| && j < |acts|
    requires InvokedAt(run, tr, acts, i).Some? && InvokedAt(run, tr, acts, i) == InvokedAt(run, tr, acts, j)
    ensures i == j
  {
    var x, y := acts[i].id, acts[j].id;
    var a, b := tr[i].workers[x].pc.attempt, tr[j].workers[y].pc.attempt;
    Correlation.InvocationIdInjective(run, x, a, y, b);
    hide Sensible, StepAt, Correlation.InvocationId;
    CalledOnce(w, tr, acts, i, j, x, a);
  }

  /** How many of the first n steps are calls under a given invocation id. */
  ghost function CallCount(run: string, tr: seq<Sys>, acts: seq<Action>, n: nat, id: string): nat {
    if n == 0 || n > |acts| || n > |tr| then 0
    else CallCount(run, tr, acts, n - 1, id) + if InvokedAt(run, tr, acts, n - 1) == Some(id) then 1 else 0
  }

  lemma {:induction false} CountedMeansCalled(run: string, tr: seq<Sys>, acts: seq<Action>, n: nat, id: string) returns (i: nat)
    requires n <= |acts| && n <= |tr| && CallCount(run, tr, acts, n, id) >= 1
    ensures i < n && InvokedAt(run, tr, acts, i) == Some(id)
    decreases n
  {
    hide InvokedAt;
    if InvokedAt(run, tr, acts, n - 1) == Some(id) {
      i := n - 1;
    } else {
      i := CountedMeansCalled(run, tr, acts, n - 1, id);
    }
  }

  lemma {:induction false} CountedOnce(w: World, run: string, tr: seq<Sys>, acts: seq<Action>, n: nat, id: string)
    requires Sensible(w) && Run(w, tr, acts) && n <= |acts|
    ensures CallCount(run, tr, acts, n, id) <= 1
    decreases n
  {
    hide InvokedAt, Sensible, StepAt, Init;
    if n > 0 {
      CountedOnce(w, run, tr, acts, n - 1, id);
      if InvokedAt(run, tr, acts, n - 1) == Some(id) && CallCount(run, tr, acts, n - 1, id) >= 1 {
        var i := CountedMeansCalled(run, tr, acts, n - 1, id);
        InvocationsDiffer(w, run, tr, acts, i, n - 1);
      }
    }
  }

  /** What the calls of an engine run ask of the transport, with a given client. */
  ghost function BudgetOf(run: string, tr: seq<Sys>, acts: seq<Action>, answers: string -> nat): Correlation.Budget {
    Correlation.Budget(id => CallCount(run, tr, acts, |acts|, id), answers)
  }

  /** The transport under the calls of an engine run: every call still registered can be found
      under its id, so no answer is lost; and if the client answers no invocation twice, the pump
      never blocks. */
  lemma EngineTransport(w: World, run: string, tr: seq<Sys>, acts: seq<Action>, answers: string -> nat,
                        ctr: seq<Correlation.State>, cacts: seq<Correlation.Action>, i: nat)
    requires Sensible(w) && Run(w, tr, acts) && i < |ctr|
    requires Correlation.Run(BudgetOf(run, tr, acts, answers), ctr, cacts)
    ensures Correlation.AllFindable(ctr[i])
    ensures (forall id :: answers(id) <= 1) && ctr[i].pump.Holding? ==>
              Correlation.Enabled(BudgetOf(run, tr, acts, answers), ctr[i], Correlation.Deliver)
  {
    hide Correlation.Run, Run, Sensible, Correlation.Enabled, Correlation.AllFindable, CallCount;
    var b := BudgetOf(run, tr, acts, answers);
    forall id ensures b.uses(id) <= 1 {
      CountedOnce(w, run, tr, acts, |acts|, id);
    }
    Correlation.OnceIsFindable(b, ctr, cacts, i);
    if (forall id :: answers(id) <= 1) && ctr[i].pump.Holding? {
      assert Correlation.AnsweredOnce(b);
      Correlation.PumpNeverBlocks(b, ctr, cacts, i);
    }
  }
}
