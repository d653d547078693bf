/** The whole engine: the main loop, one goroutine per dispatched task, the permit channel, the
    rate limiters, the done channel and the clock.  Every action is atomic and any enabled action
    may come next, so runs are all interleavings of the goroutines. */
module Engine {
  import opened Values
  import opened Graphs
  import opened Workflows
  import opened Spans
  import Scheduling
  import MainLoop
  import TaskExecution
  import Templates
  import Buckets
  import opened Confluence

  datatype Key = Global | Provider(name: string)

  /** Where a task goroutine stands; the number is the attempt. */
  datatype Pc =
    | Start
    | WantPermit(attempt: nat)
    | WantGlobal(attempt: nat)
    | WantProvider(attempt: nat)
    | MayCall(attempt: nat)
    | Calling(attempt: nat)
    | Backoff(attempt: nat)
    | Sending
    | Sent

  datatype Worker = Worker(pc: Pc, seen: map<Id, Value>, inputs: Value, span: Span)

  datatype Sys = Sys(
    main: Scheduling.State,
    workers: map<Id, Worker>,
    held: int,                          // permits taken from the channel
    done: seq<Span>,                    // spans sent and not yet received
    cancelled: bool,
    now: real,
    buckets: map<Key, Buckets.Tokens>,
    taken: map<Key, int>,               // tokens granted so far
    calls: map<Key, int>)               // executor calls so far

  /** One step of a task goroutine. */
  datatype Move =
    | ResolveInputs
    | TakePermit
    | QuitAtPermit(durationMs: nat)
    | TakeGlobal
    | PollGlobal
    | QuitAtGlobal(durationMs: nat)
    | TakeProvider
    | PollProvider
    | QuitAtProvider(durationMs: nat)
    | Call
    | Return(durationMs: nat)
    | Wake
    | Send

  datatype Action =
    | Dispatch(id: Id)
    | Receive
    | EndDrain
    | Complete
    | Cancel
    | Tick(dt: real)
    | Work(id: Id, move: Move)

  // ---------- configuration ----------

  function C(w: World): Scheduling.Config {
    MainLoop.ConfigOf(w.wf)
  }

  function ParamsOf(r: RateLimit): Buckets.Params
    requires r.per > 0.0
  {
    Buckets.Params(r.requests as real, r.requests as real / r.per)
  }

  ghost predicate SaneLimit(r: Option<RateLimit>) {
    r.Some? ==> r.value.requests >= 1 && r.value.per > 0.0
  }

  /** What a validated workflow with sensible numbers satisfies. */
  ghost predicate Sensible(w: World) {
    && Closed(G(w)) && Acyclic(G(w))
    && w.wf.maxParallel >= 1
    && SaneLimit(w.wf.rateLimit)
    && (forall p :: p in w.wf.providers ==> SaneLimit(w.wf.providers[p]))
  }

  /** The limiter behind a key: none where no limit is configured. */
  function LimitOf(w: World, k: Key): Option<RateLimit> {
    match k
    case Global => w.wf.rateLimit
    case Provider(p) => if p in w.wf.providers then w.wf.providers[p] else None
  }

  function TaskOf(w: World, id: Id): Task
    requires id in G(w)
  {
    TaskMap(w.wf.tasks)[id]
  }

  function MaxRetries(w: World, id: Id): int
    requires id in G(w)
  {
    TaskOf(w, id).EffectiveRetry(w.wf.defaultRetry).max
  }

  /** Whether a task passes through a provider limiter. */
  predicate UsesProvider(w: World, id: Id)
    requires id in G(w)
  {
    TaskOf(w, id).provider != "" && TaskOf(w, id).provider in w.wf.providers
  }

  function ProviderKey(w: World, id: Id): Key
    requires id in G(w)
  {
    Provider(TaskOf(w, id).provider)
  }

  function ChannelCapacity(w: World): nat {
    |w.wf.tasks| + 4
  }

  // ---------- one goroutine ----------

  predicate HoldsPermit(pc: Pc) {
    pc.WantGlobal? || pc.WantProvider? || pc.MayCall? || pc.Calling?
  }

  predicate CanMove(w: World, id: Id, k: Worker, m: Move)
    requires id in G(w)
  {
    match m
    case ResolveInputs => k.pc.Start?
    case TakePermit => k.pc.WantPermit?
    case QuitAtPermit(_) => k.pc.WantPermit?
    case TakeGlobal => k.pc.WantGlobal?
    case PollGlobal => k.pc.WantGlobal?
    case QuitAtGlobal(_) => k.pc.WantGlobal?
    case TakeProvider => k.pc.WantProvider?
    case PollProvider => k.pc.WantProvider?
    case QuitAtProvider(_) => k.pc.WantProvider?
    case Call => k.pc.MayCall?
    case Return(_) => k.pc.Calling?
    case Wake => k.pc.Backoff?
    case Send => k.pc.Sending?
  }

  /** Loop head: with attempts left the goroutine asks for a permit, else it sends what it has. */
  function Begin(w: World, id: Id, k: Worker, attempt: nat): Worker
    requires id in G(w)
  {
    if attempt <= MaxRetries(w, id) + 1 then k.(pc := WantPermit(attempt)) else k.(pc := Sending)
  }

  function Moved(w: World, id: Id, k: Worker, m: Move): Worker
    requires id in G(w) && CanMove(w, id, k, m)
  {
    match m
    case ResolveInputs =>
      (match Templates.Resolve(Obj(TaskOf(w, id).inputs), TaskExecution.ScopeOf(w.inputs, k.seen), w.json)
       case None => k.(pc := Sending, span := TaskExecution.UnresolvedSpan(id))
       case Some(v) => Begin(w, id, k.(inputs := v, span := TaskExecution.FreshSpan(id)), 1))
    case TakePermit => k.(pc := WantGlobal(k.pc.attempt), span := k.span.(attempts := k.pc.attempt))
    case QuitAtPermit(d) =>
      k.(pc := Sending, span := TaskExecution.Cancelled(k.span.(attempts := k.pc.attempt)).(durationMs := d))
    case TakeGlobal => k.(pc := if UsesProvider(w, id) then WantProvider(k.pc.attempt) else MayCall(k.pc.attempt))
    case TakeProvider => k.(pc := MayCall(k.pc.attempt))
    case PollGlobal => k
    case PollProvider => k
    case QuitAtGlobal(d) => k.(pc := Sending, span := TaskExecution.Cancelled(k.span).(durationMs := d))
    case QuitAtProvider(d) => k.(pc := Sending, span := TaskExecution.Cancelled(k.span).(durationMs := d))
    case Call => k.(pc := Calling(k.pc.attempt))
    case Return(d) =>
      var r := w.skill(id, k.inputs, k.pc.attempt);
      var s := TaskExecution.AfterCall(k.span, r);
      if TaskExecution.Failing(r) && k.pc.attempt <= MaxRetries(w, id)
      then k.(pc := Backoff(k.pc.attempt), span := s)
      else k.(pc := Sending, span := s.(durationMs := d))
    case Wake => Begin(w, id, k, k.pc.attempt + 1)
    case Send => k.(pc := Sent)
  }

  // ---------- limiters and counters ----------

  function Get(m: map<Key, int>, k: Key): int {
    if k in m then m[k] else 0
  }

  function Bump(m: map<Key, int>, k: Key): map<Key, int> {
    m[k := Get(m, k) + 1]
  }

  /** A key without a bucket has the no-op limiter, which always grants. */
  predicate Grants(w: World, s: Sys, k: Key) {
    match LimitOf(w, k)
    case None => true
    case Some(r) => r.per > 0.0 && k in s.buckets && Buckets.LevelAt(ParamsOf(r), s.buckets[k], s.now) >= 1.0
  }

  function PolledBuckets(w: World, s: Sys, k: Key): map<Key, Buckets.Tokens> {
    match LimitOf(w, k)
    case None => s.buckets
    case Some(r) =>
      if r.per > 0.0 && k in s.buckets
      then s.buckets[k := Buckets.Polled(ParamsOf(r), s.buckets[k], s.now, 1.0)]
      else s.buckets
  }

  function FullBuckets(w: World): map<Key, Buckets.Tokens> {
    map k | k in {Global} + (set p | p in w.wf.providers :: Provider(p)) && LimitOf(w, k).Some? ::
      Buckets.Tokens(LimitOf(w, k).value.requests as real, 0.0)
  }

  // ---------- the system ----------

  function Init(w: World): Sys {
    Sys(Scheduling.Init(C(w)), map[], 0, [], false, 0.0, FullBuckets(w), map[], map[])
  }

  predicate Resources(w: World, s: Sys, id: Id, m: Move)
    requires id in G(w)
  {
    match m
    case TakePermit => s.held < w.wf.maxParallel
    case QuitAtPermit(_) => s.cancelled
    case QuitAtGlobal(_) => s.cancelled
    case QuitAtProvider(_) => s.cancelled
    case TakeGlobal => Grants(w, s, Global)
    case PollGlobal => !Grants(w, s, Global)
    case TakeProvider => Grants(w, s, ProviderKey(w, id))
    case PollProvider => !Grants(w, s, ProviderKey(w, id))
    case Send => |s.done| < ChannelCapacity(w)
    case _ => true
  }

  /** The action of the main loop that taking the next span amounts to. */
  function Taking(s: Sys): Scheduling.Action
    requires s.done != []
  {
    if s.main.phase.Running? then Scheduling.Receive(s.done[0]) else Scheduling.Drain(s.done[0])
  }

  ghost predicate Enabled(w: World, s: Sys, a: Action) {
    match a
    case Dispatch(id) => Scheduling.Enabled(C(w), s.main, Scheduling.Dispatch(id))
    case Receive => s.done != [] && Scheduling.Enabled(C(w), s.main, Taking(s))
    case EndDrain => Scheduling.Enabled(C(w), s.main, Scheduling.EndDrain)
    case Complete => Scheduling.Enabled(C(w), s.main, Scheduling.Complete)
    case Cancel => true
    case Tick(dt) => dt >= 0.0
    case Work(id, m) =>
      id in s.workers && id in G(w) && CanMove(w, id, s.workers[id], m) && Resources(w, s, id, m)
  }

  function NewWorker(id: Id, seen: map<Id, Value>): Worker {
    Worker(Start, seen, Null, TaskExecution.FreshSpan(id))
  }

  function PermitChange(m: Move): int {
    match m
    case TakePermit => 1
    case QuitAtGlobal(_) => -1
    case QuitAtProvider(_) => -1
    case Return(_) => -1
    case _ => 0
  }

  /** The limiter a move polls, if any. */
  function PolledKey(w: World, id: Id, m: Move): Option<Key>
    requires id in G(w)
  {
    match m
    case TakeGlobal => Some(Global)
    case PollGlobal => Some(Global)
    case TakeProvider => Some(ProviderKey(w, id))
    case PollProvider => Some(ProviderKey(w, id))
    case _ => None
  }

  function WorkStep(w: World, s: Sys, id: Id, m: Move): Sys
    requires id in s.workers && id in G(w) && CanMove(w, id, s.workers[id], m)
  {
    var polled := PolledKey(w, id, m);
    s.(workers := s.workers[id := Moved(w, id, s.workers[id], m)],
       held := s.held + PermitChange(m),
       done := if m.Send? then s.done + [s.workers[id].span] else s.done,
       buckets := if polled.Some? then PolledBuckets(w, s, polled.value) else s.buckets,
       taken := if m.TakeGlobal? || m.TakeProvider? then Bump(s.taken, polled.value) else s.taken,
       calls :=
         if !m.Call? then s.calls
         else if UsesProvider(w, id) then Bump(Bump(s.calls, Global), ProviderKey(w, id))
         else Bump(s.calls, Global))
  }

  ghost function Apply(w: World, s: Sys, a: Action): Sys
    requires Enabled(w, s, a)
  {
    match a
    case Dispatch(id) =>
      s.(main := Scheduling.Apply(C(w), s.main, Scheduling.Dispatch(id)),
         workers := s.workers[id := NewWorker(id, s.main.results)])
    case Receive =>
      var t := Scheduling.Apply(C(w), s.main, Taking(s));
      s.(main := t, workers := s.workers - {s.done[0].id}, done := s.done[1..], cancelled := s.cancelled || t.runFailed)
    case EndDrain => s.(main := Scheduling.Apply(C(w), s.main, Scheduling.EndDrain))
    case Complete => s.(main := Scheduling.Apply(C(w), s.main, Scheduling.Complete))
    case Cancel => s.(cancelled := true)
    case Tick(dt) => s.(now := s.now + dt)
    case Work(id, m) => WorkStep(w, s, id, m)
  }

  // ---------- runs ----------

  ghost predicate StepAt(w: World, tr: seq<Sys>, acts: seq<Action>, i: nat) {
    i < |acts| && i + 1 < |tr| && Enabled(w, tr[i], acts[i]) && tr[i + 1] == Apply(w, tr[i], acts[i])
  }

  ghost predicate Run(w: World, tr: seq<Sys>, acts: seq<Action>) {
    |tr| == |acts| + 1 && tr[0] == Init(w) && forall i: nat :: i < |acts| ==> StepAt(w, tr, acts, i)
  }

  /** Nothing outside the run cancels it. */
  ghost predicate NeverCancelled(acts: seq<Action>) {
    forall i :: 0 <= i < |acts| ==> !acts[i].Cancel?
  }
}
