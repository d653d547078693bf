/** Result correlation over the stdio transport: invocation ids, the pending map, one buffered
    channel per call, and the pump that hands incoming results to waiting calls. */
module Correlation {
  import opened Values

  // ---------- invocation ids ----------

  function Digit(d: nat): char
    requires d < 10
  {
    "0123456789"[d]
  }

  function Decimal(n: nat): (s: string)
    ensures s != ""
  {
    if n < 10 then [Digit(n)] else Decimal(n / 10) + [Digit(n % 10)]
  }

  function InvocationId(run: string, task: string, attempt: nat): string {
    run + "-" + task + "-" + Decimal(attempt)
  }

  function DigitValue(c: char): int {
    c as int - '0' as int
  }

  function DecimalValue(s: string): int {
    if s == "" then 0 else 10 * DecimalValue(s[..|s| - 1]) + DigitValue(s[|s| - 1])
  }

  lemma DigitFacts(d: nat)
    requires d < 10
    ensures DigitValue(Digit(d)) == d && Digit(d) != '-'
  {
    var s := "0123456789";
    assert s[0] == '0' && s[1] == '1' && s[2] == '2' && s[3] == '3' && s[4] == '4';
    assert s[5] == '5' && s[6] == '6' && s[7] == '7' && s[8] == '8' && s[9] == '9';
  }

  /** Printing loses nothing and prints no dash. */
  lemma {:induction false} DecimalRoundTrip(n: nat)
    ensures DecimalValue(Decimal(n)) == n && '-' !in Decimal(n)
    decreases n
  {
    DigitFacts(n % 10);
    if n < 10 {
      var s := [Digit(n)];
      assert s[..|s| - 1] == "";
    } else {
      DecimalRoundTrip(n / 10);
      var front := Decimal(n / 10);
      var s := front + [Digit(n % 10)];
      assert s[..|s| - 1] == front;
    }
  }

  /** The task id ends at the last dash. */
  lemma LastDash(a: string, x: string, b: string, y: string)
    requires '-' !in x && '-' !in y && a + ("-" + x) == b + ("-" + y)
    ensures a == b && x == y
  {
    var s, t := a + ("-" + x), b + ("-" + y);
    assert s[|a|] == '-' && t[|b|] == '-';
    assert forall i :: |a| < i < |s| ==> s[i] == x[i - |a| - 1];
    assert forall i :: |b| < i < |t| ==> t[i] == y[i - |b| - 1];
    assert |a| == |b|;
    assert a == s[..|a|] && b == t[..|b|];
    assert x == s[|a| + 1..] && y == t[|b| + 1..];
  }

  /** Within a run, task id and attempt determine the invocation id and are determined by it,
      even when task ids contain dashes. */
  lemma InvocationIdInjective(run: string, task1: string, attempt1: nat, task2: string, attempt2: nat)
    ensures InvocationId(run, task1, attempt1) == InvocationId(run, task2, attempt2) <==>
            task1 == task2 && attempt1 == attempt2
  {
    if InvocationId(run, task1, attempt1) == InvocationId(run, task2, attempt2) {
      var x, y := Decimal(attempt1), Decimal(attempt2);
      DecimalRoundTrip(attempt1);
      DecimalRoundTrip(attempt2);
      var p := run + "-";
      DropPrefix(p, task1, x, InvocationId(run, task1, attempt1));
      DropPrefix(p, task2, y, InvocationId(run, task2, attempt2));
      LastDash(task1, x, task2, y);
    }
  }

  lemma DropPrefix(p: string, a: string, x: string, s: string)
    requires s == p + a + "-" + x
    ensures |p| <= |s| && s[|p|..] == a + ("-" + x)
  {
  }

  // ---------- the protocol ----------

  datatype Result = Result(id: string, payload: Value)

  datatype CallState =
    | Waiting
    | Got(result: Result)
    | Abandoned             // context done, or the invocation could not be written

  /** One Execute call: its id, its channel of capacity one, and whether its deferred deletion is
      still to come. */
  datatype Call = Call(id: string, buffer: seq<Result>, state: CallState, registered: bool)

  /** The pump looks a channel up under the lock and sends on it afterwards. */
  datatype Pump = Idle | Holding(call: nat, result: Result)

  /** `answered` counts the results the client has sent under each id. */
  datatype State = State(pending: map<string, nat>, calls: seq<Call>, pump: Pump, answered: multiset<string>)

  datatype Action =
    | Register(id: string)
    | Arrive(result: Result)
    | Deliver
    | Take(call: nat)
    | Abandon(call: nat)
    | Unregister(call: nat)

  /** How often callers use each invocation id, and how often the client answers it, at most. */
  datatype Budget = Budget(uses: string -> nat, answers: string -> nat)

  const CAPACITY := 1

  function Init(): State {
    State(map[], [], Idle, multiset{})
  }

  /** What the channels and the lock allow. */
  ghost predicate Possible(s: State, a: Action) {
    match a
    case Register(id) => true
    case Arrive(r) => s.pump.Idle?
    case Deliver => s.pump.Holding? && s.pump.call < |s.calls| && |s.calls[s.pump.call].buffer| < CAPACITY
    case Take(k) => k < |s.calls| && s.calls[k].state.Waiting? && s.calls[k].buffer != []
    case Abandon(k) => k < |s.calls| && s.calls[k].state.Waiting?
    case Unregister(k) => k < |s.calls| && !s.calls[k].state.Waiting? && s.calls[k].registered
  }

  function Users(calls: seq<Call>, id: string): set<nat> {
    set k: nat | k < |calls| && calls[k].id == id
  }

  function Uses(calls: seq<Call>, id: string): nat {
    |Users(calls, id)|
  }

  ghost predicate Enabled(b: Budget, s: State, a: Action) {
    && Possible(s, a)
    && (a.Register? ==> Uses(s.calls, a.id) < b.uses(a.id))
    && (a.Arrive? ==> s.answered[a.result.id] < b.answers(a.result.id))
  }

  ghost function Apply(s: State, a: Action): State
    requires Possible(s, a)
  {
    match a
    case Register(id) => s.(pending := s.pending[id := |s.calls|], calls := s.calls + [Call(id, [], Waiting, true)])
    case Arrive(r) =>
      s.(answered := s.answered + multiset{r.id}, pump := if r.id in s.pending then Holding(s.pending[r.id], r) else Idle)
    case Deliver =>
      var k := s.pump.call;
      s.(calls := s.calls[k := s.calls[k].(buffer := s.calls[k].buffer + [s.pump.result])], pump := Idle)
    case Take(k) =>
      var c := s.calls[k];
      s.(calls := s.calls[k := c.(buffer := c.buffer[1..], state := Got(c.buffer[0]))])
    case Abandon(k) => s.(calls := s.calls[k := s.calls[k].(state := Abandoned)])
    case Unregister(k) => s.(pending := s.pending - {s.calls[k].id}, calls := s.calls[k := s.calls[k].(registered := false)])
  }

  /** Results on their way to call k, or already with it. */
  function Answers(s: State, k: nat): nat
    requires k < |s.calls|
  {
    |s.calls[k].buffer|
    + (if s.calls[k].state.Got? then 1 else 0)
    + (if s.pump.Holding? && s.pump.call == k then 1 else 0)
  }

  ghost predicate PendingOk(s: State) {
    forall id :: id in s.pending ==>
      s.pending[id] < |s.calls| && s.calls[s.pending[id]].id == id && s.calls[s.pending[id]].registered
  }

  /** Everything addressed to a call carries the call's own id. */
  ghost predicate OwnResults(s: State, k: nat)
    requires k < |s.calls|
  {
    && (forall i :: 0 <= i < |s.calls[k].buffer| ==> s.calls[k].buffer[i].id == s.calls[k].id)
    && (s.calls[k].state.Got? ==> s.calls[k].state.result.id == s.calls[k].id)
    && (s.pump.Holding? && s.pump.call == k ==> s.pump.result.id == s.calls[k].id)
  }

  /** A call has no more answers than the client has sent under its id. */
  ghost predicate FewAnswers(s: State, k: nat)
    requires k < |s.calls|
  {
    Answers(s, k) <= s.answered[s.calls[k].id]
  }

  /** No other call uses the same id. */
  ghost predicate OnlyUse(s: State, k: nat)
    requires k < |s.calls|
  {
    forall j :: 0 <= j < |s.calls| && j != k ==> s.calls[j].id != s.calls[k].id
  }

  /** The call can be found under its id. */
  ghost predicate Findable(s: State, k: nat)
    requires k < |s.calls|
  {
    s.calls[k].id in s.pending && s.pending[s.calls[k].id] == k
  }

  ghost predicate CallsOk(s: State) {
    forall k: nat :: k < |s.calls| ==>
      OwnResults(s, k) && FewAnswers(s, k) && (OnlyUse(s, k) && s.calls[k].registered ==> Findable(s, k))
  }

  /** What every step keeps, whatever callers and client do. */
  ghost predicate Inv(s: State) {
    PendingOk(s) && CallsOk(s) && (s.pump.Holding? ==> s.pump.call < |s.calls|)
  }

  lemma OnlyUseEarlier(s: State, a: Action, k: nat)
    requires Possible(s, a) && k < |s.calls| && OnlyUse(Apply(s, a), k)
    ensures OnlyUse(s, k)
  {
    var t := Apply(s, a);
    forall j | 0 <= j < |s.calls| && j != k ensures s.calls[j].id != s.calls[k].id {
      assert t.calls[j].id == s.calls[j].id && t.calls[k].id == s.calls[k].id;
    }
  }

  lemma StepResults(s: State, a: Action, k: nat)
    requires Inv(s) && Possible(s, a) && k < |Apply(s, a).calls|
    ensures OwnResults(Apply(s, a), k) && FewAnswers(Apply(s, a), k)
  {
    if k < |s.calls| {
      assert OwnResults(s, k) && FewAnswers(s, k);
    }
    hide Findable, OnlyUse;
  }

  lemma StepFindable(s: State, a: Action, k: nat)
    requires Inv(s) && Possible(s, a) && k < |Apply(s, a).calls|
    ensures var t := Apply(s, a); OnlyUse(t, k) && t.calls[k].registered ==> Findable(t, k)
  {
    var t := Apply(s, a);
    if k < |s.calls| && OnlyUse(t, k) {
      OnlyUseEarlier(s, a, k);
      assert s.calls[k].registered ==> Findable(s, k);
      assert t.calls[k].id == s.calls[k].id;
      if a.Register? { assert t.calls[|s.calls|].id == a.id; }
      if a.Unregister? && a.call != k { assert s.calls[a.call].id != s.calls[k].id; }
    }
    hide OwnResults, FewAnswers;
  }

  lemma StepPending(s: State, a: Action)
    requires Inv(s) && Possible(s, a)
    ensures PendingOk(Apply(s, a))
  {
    hide OwnResults, FewAnswers, Findable, OnlyUse;
    var t := Apply(s, a);
    forall id | id in t.pending
      ensures t.pending[id] < |t.calls| && t.calls[t.pending[id]].id == id && t.calls[t.pending[id]].registered
    {
      if a.Unregister? {
        assert id in s.pending && s.calls[s.pending[id]].id == id;
      }
    }
  }

  lemma StepInv(s: State, a: Action)
    requires Inv(s) && Possible(s, a)
    ensures Inv(Apply(s, a))
  {
    var t := Apply(s, a);
    StepPending(s, a);
    hide OwnResults, FewAnswers, Findable, OnlyUse;
    forall k: nat | k < |t.calls|
      ensures OwnResults(t, k) && FewAnswers(t, k) && (OnlyUse(t, k) && t.calls[k].registered ==> Findable(t, k))
    {
      StepResults(s, a, k);
      StepFindable(s, a, k);
    }
  }

  // ---------- runs ----------

  ghost predicate StepAt(b: Budget, tr: seq<State>, acts: seq<Action>, i: nat) {
    i < |acts| && i + 1 < |tr| && Enabled(b, tr[i], acts[i]) && tr[i + 1] == Apply(tr[i], acts[i])
  }

  ghost predicate RunFrom(b: Budget, s: State, tr: seq<State>, acts: seq<Action>) {
    |tr| == |acts| + 1 && tr[0] == s && forall i: nat :: i < |acts| ==> StepAt(b, tr, acts, i)
  }

  ghost predicate Run(b: Budget, tr: seq<State>, acts: seq<Action>) {
    RunFrom(b, Init(), tr, acts)
  }

  /** The budget has been kept. */
  ghost predicate Kept(b: Budget, s: State) {
    && (forall id :: s.answered[id] <= b.answers(id))
    && (forall id :: Uses(s.calls, id) <= b.uses(id))
  }

  lemma NoUses(id: string)
    ensures Uses([], id) == 0
  {
    assert Users([], id) == {};
  }

  lemma MoreUses(calls: seq<Call>, c: Call, id: string)
    ensures Uses(calls + [c], id) == Uses(calls, id) + if c.id == id then 1 else 0
  {
    assert Users(calls + [c], id) == Users(calls, id) + if c.id == id then {|calls|} else {};
  }

  lemma SameUses(calls: seq<Call>, more: seq<Call>, id: string)
    requires |more| == |calls| && forall k :: 0 <= k < |calls| ==> more[k].id == calls[k].id
    ensures Uses(more, id) == Uses(calls, id)
  {
    assert Users(more, id) == Users(calls, id);
  }

  lemma UsesAfter(s: State, a: Action, id: string)
    requires Possible(s, a)
    ensures Uses(Apply(s, a).calls, id) == Uses(s.calls, id) + if a.Register? && a.id == id then 1 else 0
  {
    hide Uses;
    if a.Register? {
      MoreUses(s.calls, Call(a.id, [], Waiting, true), id);
    } else {
      SameUses(s.calls, Apply(s, a).calls, id);
    }
  }

  lemma StepKept(b: Budget, s: State, a: Action)
    requires Kept(b, s) && Enabled(b, s, a)
    ensures Kept(b, Apply(s, a))
  {
    hide Uses;
    forall id ensures Uses(Apply(s, a).calls, id) <= b.uses(id) {
      UsesAfter(s, a, id);
    }
  }

  lemma {:induction false} RunInv(b: Budget, tr: seq<State>, acts: seq<Action>, i: nat)
    requires Run(b, tr, acts) && i < |tr|
    ensures Inv(tr[i]) && Kept(b, tr[i])
    decreases i
  {
    hide Inv, Apply, Enabled, Kept, Possible;
    if i == 0 {
      InitInv(b);
    } else {
      RunInv(b, tr, acts, i - 1);
      assert StepAt(b, tr, acts, i - 1);
      EnabledIsPossible(b, tr[i - 1], acts[i - 1]);
      StepInv(tr[i - 1], acts[i - 1]);
      StepKept(b, tr[i - 1], acts[i - 1]);
    }
  }

  lemma EnabledIsPossible(b: Budget, s: State, a: Action)
    requires Enabled(b, s, a)
    ensures Possible(s, a)
  {
  }

  lemma InitInv(b: Budget)
    ensures Inv(Init()) && Kept(b, Init())
  {
    forall id ensures Uses(Init().calls, id) == 0 { NoUses(id); }
    hide Uses;
  }

  lemma UsedAtLeastOnce(s: State, k: nat)
    requires k < |s.calls|
    ensures Uses(s.calls, s.calls[k].id) >= 1
  {
    assert k in Users(s.calls, s.calls[k].id);
  }

  lemma UsedTwice(s: State, k: nat, j: nat)
    requires k < |s.calls| && j < |s.calls| && j != k && s.calls[j].id == s.calls[k].id
    ensures Uses(s.calls, s.calls[k].id) >= 2
  {
    var users := Users(s.calls, s.calls[k].id);
    assert users == (users - {j, k}) + {j, k};
    assert |{j, k}| == 2;
  }

  /** Whatever callers and client do, a call that returns a result returns one sent under its own
      id, in every interleaving with cancellation. */
  lemma OnlyOwnResult(b: Budget, tr: seq<State>, acts: seq<Action>, i: nat, k: nat)
    requires Run(b, tr, acts) && i < |tr| && k < |tr[i].calls| && tr[i].calls[k].state.Got?
    ensures tr[i].calls[k].state.result.id == tr[i].calls[k].id && tr[i].calls[k].id in tr[i].answered
  {
    RunInv(b, tr, acts, i);
    assert OwnResults(tr[i], k) && FewAnswers(tr[i], k);
  }

  // ---------- when the pump can block ----------

  /** No invocation that is ever made is answered twice. */
  ghost predicate AnsweredOnce(b: Budget) {
    forall id :: b.uses(id) >= 1 ==> b.answers(id) <= 1
  }

  /** Then the pump's send never blocks, in any interleaving with cancellation. */
  lemma PumpNeverBlocks(b: Budget, tr: seq<State>, acts: seq<Action>, i: nat)
    requires AnsweredOnce(b) && Run(b, tr, acts) && i < |tr| && tr[i].pump.Holding?
    ensures Enabled(b, tr[i], Deliver)
  {
    RunInv(b, tr, acts, i);
    assert FewAnswers(tr[i], tr[i].pump.call);
    UsedAtLeastOnce(tr[i], tr[i].pump.call);
    hide Uses, OwnResults;
  }

  /** The pump holds a result that no continuation of the run ever lets it deliver. */
  ghost predicate Stuck(b: Budget, s: State) {
    s.pump.Holding? && forall tr: seq<State>, acts: seq<Action> :: RunFrom(b, s, tr, acts) ==> tr[|acts|].pump == s.pump
  }

  ghost predicate CanStick(b: Budget) {
    exists tr: seq<State>, acts: seq<Action> :: Run(b, tr, acts) && Stuck(b, tr[|acts|])
  }

  /** The call has gone away with a full channel, and the pump holds another result for it. */
  ghost predicate Jammed(s: State, r: Result) {
    s.pump == Holding(0, r) && |s.calls| >= 1 && s.calls[0].buffer == [r] && s.calls[0].state.Abandoned?
  }

  lemma {:induction false} JammedForever(b: Budget, s: State, tr: seq<State>, acts: seq<Action>, r: Result, i: nat)
    requires RunFrom(b, s, tr, acts) && Jammed(s, r) && i < |tr|
    ensures Jammed(tr[i], r)
    decreases i
  {
    if i > 0 {
      JammedForever(b, s, tr, acts, r, i - 1);
      assert StepAt(b, tr, acts, i - 1);
    }
    hide Uses;
  }

  lemma JammedIsStuck(b: Budget, s: State, r: Result)
    requires Jammed(s, r)
    ensures Stuck(b, s)
  {
    forall tr: seq<State>, acts: seq<Action> | RunFrom(b, s, tr, acts) ensures tr[|acts|].pump == s.pump {
      JammedForever(b, s, tr, acts, r, |acts|);
    }
  }

  lemma RunExtend(b: Budget, tr: seq<State>, acts: seq<Action>, a: Action)
    requires Run(b, tr, acts) && Enabled(b, tr[|acts|], a)
    ensures Run(b, tr + [Apply(tr[|acts|], a)], acts + [a])
  {
    var tr', acts' := tr + [Apply(tr[|acts|], a)], acts + [a];
    hide Enabled, Apply;
    forall i: nat | i < |acts'| ensures StepAt(b, tr', acts', i) {
      if i < |acts| { assert StepAt(b, tr, acts, i); }
    }
  }

  /** A call under a given id, in a given state of its own. */
  function One(id: string, buffer: seq<Result>, state: CallState): seq<Call> {
    [Call(id, buffer, state, true)]
  }

  lemma FirstAnswerDelivered(b: Budget, id: string, r: Result) returns (tr: seq<State>, acts: seq<Action>)
    requires b.uses(id) >= 1 && b.answers(id) >= 2 && r.id == id
    ensures Run(b, tr, acts) && tr[|acts|] == State(map[id := 0], One(id, [r], Waiting), Idle, multiset{id})
  {
    var s0 := Init();
    var s1 := State(map[id := 0], One(id, [], Waiting), Idle, multiset{});
    var s2 := State(map[id := 0], One(id, [], Waiting), Holding(0, r), multiset{id});
    var s3 := State(map[id := 0], One(id, [r], Waiting), Idle, multiset{id});
    NoUses(id);
    hide Uses;
    assert Enabled(b, s0, Register(id)) && Apply(s0, Register(id)) == s1;
    assert Enabled(b, s1, Arrive(r)) && Apply(s1, Arrive(r)) == s2;
    assert Enabled(b, s2, Deliver) && Apply(s2, Deliver) == s3 by { assert [] + [r] == [r]; }
    tr, acts := [s0, s1, s2, s3], [Register(id), Arrive(r), Deliver];
    hide Enabled, Apply;
    assert StepAt(b, tr, acts, 0) && StepAt(b, tr, acts, 1) && StepAt(b, tr, acts, 2);
  }

  /** How the pump gets stuck on an id that is used and answered twice: the first answer fills the
      channel, the pump picks up the second, and the call goes away without reading. */
  lemma SecondAnswerSticks(b: Budget, id: string) returns (tr: seq<State>, acts: seq<Action>)
    requires b.uses(id) >= 1 && b.answers(id) >= 2
    ensures Run(b, tr, acts) && Stuck(b, tr[|acts|])
  {
    var r := Result(id, Null);
    tr, acts := FirstAnswerDelivered(b, id, r);
    hide Stuck, StepAt, Uses;
    var s3 := tr[|acts|];
    var s4 := s3.(pump := Holding(0, r), answered := multiset{id, id});
    var s5 := s4.(calls := One(id, [r], Abandoned));
    assert Enabled(b, s3, Arrive(r)) && Apply(s3, Arrive(r)) == s4;
    assert Enabled(b, s4, Abandon(0)) && Apply(s4, Abandon(0)) == s5;
    RunExtend(b, tr, acts, Arrive(r));
    tr, acts := tr + [s4], acts + [Arrive(r)];
    RunExtend(b, tr, acts, Abandon(0));
    tr, acts := tr + [s5], acts + [Abandon(0)];
    JammedIsStuck(b, s5, r);
  }

  lemma RoomMeansUnstuck(b: Budget, s: State)
    requires s.pump.Holding? && Enabled(b, s, Deliver)
    ensures !Stuck(b, s)
  {
    var t := Apply(s, Deliver);
    var tr, acts := [s, t], [Deliver];
    assert StepAt(b, tr, acts, 0);
    assert RunFrom(b, s, tr, acts) && tr[|acts|].pump.Idle?;
  }

  /** Exactly when the pump can be blocked for good: when the client may answer some invocation
      that is made more than once. */
  lemma PumpSticksExactly(b: Budget)
    ensures CanStick(b) <==> !AnsweredOnce(b)
  {
    if AnsweredOnce(b) {
      forall tr: seq<State>, acts: seq<Action> | Run(b, tr, acts) ensures !Stuck(b, tr[|acts|]) {
        if tr[|acts|].pump.Holding? {
          PumpNeverBlocks(b, tr, acts, |acts|);
          RoomMeansUnstuck(b, tr[|acts|]);
        }
      }
    } else {
      var id :| b.uses(id) >= 1 && !(b.answers(id) <= 1);
      var tr, acts := SecondAnswerSticks(b, id);
    }
  }

  // ---------- when an answer can be lost ----------

  /** Every call whose deferred deletion is still to come can be found under its id. */
  ghost predicate AllFindable(s: State) {
    forall k: nat :: k < |s.calls| && s.calls[k].registered ==> Findable(s, k)
  }

  ghost predicate NeverLoses(b: Budget) {
    forall tr: seq<State>, acts: seq<Action> :: Run(b, tr, acts) ==> AllFindable(tr[|acts|])
  }

  /** No invocation id is used twice. */
  ghost predicate UsedOnce(b: Budget) {
    forall id :: b.uses(id) <= 1
  }

  lemma OnceIsFindable(b: Budget, tr: seq<State>, acts: seq<Action>, i: nat)
    requires UsedOnce(b) && Run(b, tr, acts) && i < |tr|
    ensures AllFindable(tr[i])
  {
    var s := tr[i];
    RunInv(b, tr, acts, i);
    hide Uses, OwnResults, FewAnswers;
    forall k: nat | k < |s.calls| && s.calls[k].registered ensures Findable(s, k) {
      forall j | 0 <= j < |s.calls| && j != k ensures s.calls[j].id != s.calls[k].id {
        if s.calls[j].id == s.calls[k].id { UsedTwice(s, k, j); }
      }
      assert OnlyUse(s, k);
    }
  }

  lemma RegisteredTwice(b: Budget, id: string) returns (tr: seq<State>, acts: seq<Action>)
    requires b.uses(id) >= 2
    ensures Run(b, tr, acts)
    ensures tr[|acts|] == State(map[id := 1], One(id, [], Waiting) + One(id, [], Waiting), Idle, multiset{})
  {
    var s0 := Init();
    var s1 := State(map[id := 0], One(id, [], Waiting), Idle, multiset{});
    var s2 := State(map[id := 1], One(id, [], Waiting) + One(id, [], Waiting), Idle, multiset{});
    NoUses(id);
    MoreUses([], Call(id, [], Waiting, true), id);
    assert [] + One(id, [], Waiting) == One(id, [], Waiting);
    hide Uses;
    assert Enabled(b, s0, Register(id)) && Apply(s0, Register(id)) == s1;
    assert Enabled(b, s1, Register(id)) && Apply(s1, Register(id)) == s2;
    tr, acts := [s0, s1, s2], [Register(id), Register(id)];
    hide Enabled, Apply;
    assert StepAt(b, tr, acts, 0) && StepAt(b, tr, acts, 1);
  }

  /** An id used twice: the first call's deferred deletion removes the entry of the second. */
  lemma ReuseLoses(b: Budget, id: string) returns (tr: seq<State>, acts: seq<Action>)
    requires b.uses(id) >= 2
    ensures Run(b, tr, acts) && !AllFindable(tr[|acts|])
  {
    tr, acts := RegisteredTwice(b, id);
    hide StepAt, Uses;
    var s2 := tr[|acts|];
    RunExtend(b, tr, acts, Abandon(0));
    var s3 := Apply(s2, Abandon(0));
    tr, acts := tr + [s3], acts + [Abandon(0)];
    RunExtend(b, tr, acts, Unregister(0));
    var s4 := Apply(s3, Unregister(0));
    tr, acts := tr + [s4], acts + [Unregister(0)];
    assert s4.calls[1].registered && !Findable(s4, 1);
  }

  /** Exactly when no answer can miss the call it is for: when no invocation id is used twice. */
  lemma AnswersFoundExactly(b: Budget)
    ensures NeverLoses(b) <==> UsedOnce(b)
  {
    if UsedOnce(b) {
      forall tr: seq<State>, acts: seq<Action> | Run(b, tr, acts) ensures AllFindable(tr[|acts|]) {
        OnceIsFindable(b, tr, acts, |acts|);
      }
    } else {
      var id :| !(b.uses(id) <= 1);
      var tr, acts := ReuseLoses(b, id);
    }
  }

  /** With ids used once, the answer of a registered call goes to the call's own channel. */
  lemma AnswerIsRouted(b: Budget, tr: seq<State>, acts: seq<Action>, i: nat, k: nat, r: Result)
    requires UsedOnce(b) && Run(b, tr, acts) && i < |tr| && k < |tr[i].calls| && tr[i].calls[k].registered
    requires r.id == tr[i].calls[k].id && Enabled(b, tr[i], Arrive(r))
    ensures Apply(tr[i], Arrive(r)).pump == Holding(k, r)
  {
    OnceIsFindable(b, tr, acts, i);
    assert Findable(tr[i], k);
  }

  // ---------- the transport object ----------

  /** The shared object.  Each method is one critical section or channel operation of Execute or
      PumpIncoming; other goroutines may run between any two of them. */
  class Transport {
    var pending: map<string, nat>
    var calls: seq<Call>
    var pump: Pump
    ghost var answered: multiset<string>

    ghost function Abs(): State
      reads this
    {
      State(pending, calls, pump, answered)
    }

    ghost predicate Valid()
      reads this
    {
      Inv(Abs())
    }

    constructor ()
      ensures Valid() && Abs() == Init()
    {
      pending, calls, pump, answered := map[], [], Idle, multiset{};
      new;
      InitInv(Budget(_ => 0, _ => 0));
    }

    /** Execute, first critical section: a fresh channel under the invocation id, in the place of
        any older one. */
    method Register(id: string) returns (k: nat)
      requires Valid()
      modifies this
      ensures Valid() && Abs() == Apply(old(Abs()), Action.Register(id)) && k == |old(calls)|
    {
      StepInv(Abs(), Action.Register(id));
      hide Inv;
      k := |calls|;
      calls := calls + [Call(id, [], Waiting, true)];
      pending := pending[id := k];
    }

    /** PumpIncoming, critical section: look the channel up; an unknown id is dropped. */
    method Lookup(r: Result)
      requires Valid() && pump.Idle?
      modifies this
      ensures Valid() && Abs() == Apply(old(Abs()), Arrive(r))
    {
      StepInv(Abs(), Arrive(r));
      hide Inv;
      if r.id in pending {
        pump := Holding(pending[r.id], r);
      }
      answered := answered + multiset{r.id};
    }

    /** PumpIncoming, after the critical section: the send, which does not have to wait if the
        client has answered the invocation only once. */
    method SendResult()
      requires Valid() && pump.Holding? && answered[pump.result.id] <= 1
      modifies this
      ensures Valid() && Possible(old(Abs()), Deliver) && Abs() == Apply(old(Abs()), Deliver)
    {
      assert OwnResults(Abs(), pump.call) && FewAnswers(Abs(), pump.call);
      StepInv(Abs(), Deliver);
      hide Inv;
      var k := pump.call;
      calls := calls[k := calls[k].(buffer := calls[k].buffer + [pump.result])];
      pump := Idle;
    }

    /** Execute, the select: a result is there, or the context is done. */
    method Select(k: nat, done: bool) returns (r: Option<Result>)
      requires Valid() && k < |calls| && calls[k].state.Waiting? && (done || calls[k].buffer != [])
      modifies this
      ensures Valid()
      ensures r.None? ==> done && Abs() == Apply(old(Abs()), Abandon(k))
      ensures r.Some? ==> old(calls)[k].buffer != [] && Abs() == Apply(old(Abs()), Take(k)) && r.value.id == calls[k].id
    {
      assert OwnResults(Abs(), k);
      if done {
        StepInv(Abs(), Abandon(k));
        hide Inv;
        calls := calls[k := calls[k].(state := Abandoned)];
        r := None;
      } else {
        StepInv(Abs(), Take(k));
        hide Inv;
        var c := calls[k];
        r := Some(c.buffer[0]);
        calls := calls[k := c.(buffer := c.buffer[1..], state := Got(c.buffer[0]))];
      }
    }

    /** Execute, the deferred deletion. */
    method Unregister(k: nat)
      requires Valid() && Possible(Abs(), Action.Unregister(k))
      modifies this
      ensures Valid() && Abs() == Apply(old(Abs()), Action.Unregister(k))
      ensures calls[k].id !in pending
    {
      StepInv(Abs(), Action.Unregister(k));
      hide Inv;
      pending := pending - {calls[k].id};
      calls := calls[k := calls[k].(registered := false)];
    }
  }
}
