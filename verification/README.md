# A verified model of the workflow orchestration engine

This Dafny project models the orchestration engine of the repository and proves properties of it:

- **Graphs, CycleDetection, Workflows** – dependency graphs, the three-colour search, validation.
- **Values, Templates, TemplateLocality, TemplateMeaning** – dynamic values, the `${...}` scanner, resolution,
  what resolution depends on, and what each kind of template resolves to.
- **Spans, TaskExecution** – the trace of a task, the retry loop with its permit, backoff.
- **Scheduling, SchedulerInvariant, SchedulerProperties** – the main loop as a transition system (any
  completion order, any returned spans, any mix of `fail_fast` and `continue`), its inductive invariant,
  and properties of whole runs.
- **MainLoop, SchedulerRun** – the same loop in the form the Go code has: a `Loop` object whose maps, queue
  and counters are updated step by step, each step proved to be one action of the transition system, and
  `Run`, which produces the report. **PythonScheduler** is the batching loop of the Python engine.
- **Confluence, SchedulersAgree** – every completion order, in either engine's loop, gives the spans of a plain
  sequential evaluator.
- **CriticalPath, CriticalPathGo, CriticalPathPython, CriticalPathCompare** – the longest chain of succeeded
  tasks, twice: what each engine returns for each visiting order, and exactly when the two return the same.
- **Buckets** – both token buckets over exact reals.
- **Engine, EngineInvariant, EngineRuns, EngineProgress, EngineRates, EngineInputs, EngineConfluence,
  EngineTotals** – the whole concurrent system: main loop, one goroutine per dispatched task at the granularity
  of its channel and limiter operations, permits, buckets, done channel and clock. Its main loop is proved to be
  a run of the transition system, and the scheduler results are restated and proved for it; progress,
  concurrency, rate, data flow, confluence and conservation results are proved for all interleavings.
- **EngineCancellation, CancellationExact, CancellationWorkflow** – what outside cancellation does to the
  reported status in the engine, and exactly when the report can lie: over all workflows with given dependencies
  and policies, and for one given workflow.
- **Correlation, EngineCalls** – invocation ids, the pending-map protocol of the stdio transport, and what the
  calls of an engine run ask of it.

`dafny verify dfyconfig.toml` checks everything.

## Conventions and assumptions

- Time and tokens are exact reals on a monotone clock; integers are unbounded. Jitter is any factor in [0.5, 1).
- JSON printing inside a longer string is an arbitrary function of the value (`Printer`). The executor is an
  arbitrary function of task id, resolved inputs and attempt (`Skill`), or, where outcomes may depend on
  anything, the returned span is arbitrary. An attempt is called at most once in a run (EngineCalls.CalledOnce),
  so this covers every behaviour a single run can show.
- `for` loops over Go maps pick their elements in an arbitrary order, or take the order as a parameter where
  the result depends on it.
- `depends_on` lists may repeat entries; nothing assumes otherwise.
- Preconditions beyond validation, where the code relies on them silently: task ids are not `""` (the
  critical path uses it as a sentinel, engine/internal/report/report.go:128, 140), no task is called `input`
  where templates matter (engine/internal/scheduler/scheduler.go:452-455), `requests >= 1`, `per > 0`,
  `MaxParallel >= 1`, durations are not negative, and `retry.max >= 0` where attempts are counted.
- `Loop.inFlight` maps the tasks in flight to the snapshots their goroutines hold; the Go code keeps their
  number and leaves the snapshots in the closures.
- Where code and comments disagree the code is followed: `Retryable` has no influence on retrying
  (engine/internal/scheduler/scheduler.go:421-422), and a span keeps the error text of an earlier attempt
  even if a later one succeeds.

## Model

| member | source | states |
|---|---|---|
| Graphs.AcyclicIffRanked | engine/internal/spec/spec.go:261-296 | no dependency cycle exists exactly when a topological rank exists |
| CycleDetection.GreyEdgeOnCycle | engine/internal/spec/spec.go:275-278 | an edge from the node being visited back to a grey node lies on a cycle |
| CycleDetection.Detector.Visit | engine/internal/spec/spec.go:273-287 | success finishes the node and everything below it, keeps grey and finished nodes and their ranks, and white nodes only decrease; an error names an edge on a real cycle |
| CycleDetection.DetectCycle | engine/internal/spec/spec.go:261-296 | for every visiting order the search succeeds if and only if the graph is acyclic; success yields a topological rank, an error an edge on a cycle |
| Workflows.Validate | engine/internal/spec/spec.go:238-259 | accepts exactly the workflows with unique ids, known dependencies and providers, and no cycle; each kind of rejection names a real defect |
| Templates.SegmentsUnique | engine/internal/spec/template.go:10 | scanning gives the one leftmost split of a string into characters and references; the pieces concatenate to the string |
| Templates.ExactTestsAgree | sdk-python/orchestrator/spec.py:255-257 | the Go leftmost-match test and the Python full match accept the same trimmed strings with the same key |
| Templates.TrimsAgreeExactly | sdk-python/orchestrator/spec.py:255-260 | `strip` and `TrimSpace` trim a string alike exactly when one of U+001C to U+001F is not left at an end |
| Templates.Lookup | engine/internal/spec/template.go:75-90 | the loop descends the dotted path; a missing key or a non-object on the way fails |
| Templates.FillInline | engine/internal/spec/template.go:49-69 | the replacement loop with its captured error equals filling every segment of the leftmost split once, failing if any reference fails |
| Templates.NoRescan | engine/internal/spec/template.go:50-65 | wherever a reference stands in a string, a string it looks up appears verbatim, whatever it contains, between the fillings of all segments before and after it |
| TemplateLocality.ResolvesIff | engine/internal/spec/template.go:21-73 | a value resolves exactly when every reference in it can be looked up, so map order cannot decide success |
| TemplateLocality.ResolveLocal | engine/internal/spec/template.go:21-90 | scopes that agree on the mentioned roots resolve the value alike |
| TemplateLocality.ResolveMonotone | engine/internal/spec/template.go:21-90 | extending the scope never changes a successful result |
| TemplateLocality.ResolvePlain | engine/internal/spec/template.go:21-73 | a value without references resolves to itself |
| TemplateMeaning.TrimMeaning | engine/internal/spec/template.go:46-47 | trimming leaves the one part of the string without white space, given by its code points, at the ends |
| TemplateMeaning.TrimsDiffer | sdk-python/orchestrator/spec.py:255-257 | `strip` gives something else than `TrimSpace` exactly when one of U+001C to U+001F stands at an end of that part |
| TemplateMeaning.PartsMeaning | engine/internal/spec/template.go:76-76 | a path has one split into parts without dots that give the path when joined by dots |
| TemplateMeaning.LookupMeaning | engine/internal/spec/template.go:75-90 | a path yields a value exactly when one can walk down to it through objects, one field for each part between the dots |
| TemplateMeaning.ResolveExact | engine/internal/spec/template.go:44-47 | a string that is one reference, white space aside, resolves to the very value it looks up, of whatever kind, and fails without one |
| TemplateMeaning.ResolveReference | engine/internal/spec/template.go:44-47 | the same for references with white space around the path as well |
| TemplateMeaning.ResolveInline | engine/internal/spec/template.go:49-69 | any other string whose references can be looked up resolves to the concatenation, over its leftmost split, of its plain characters, the strings looked up as they are, and all other values as printed |
| TemplateMeaning.ResolveArray | engine/internal/spec/template.go:33-42 | an array resolves exactly to the array of its resolved elements, in place |
| TemplateMeaning.ResolveObject | engine/internal/spec/template.go:23-32 | an object resolves exactly to the object of its resolved fields, under the same names |
| TaskExecution.BuildScope | engine/internal/scheduler/scheduler.go:451-457 | in the scope `id.output` finds the result of every task with a name without dots, longer paths descend into it, `input.` paths find the run inputs unless a task is called `input`, and there is no other root |
| TaskExecution.OutputReference | engine/internal/scheduler/scheduler.go:281-287 | a template that is one reference to a task output resolves to that output, of whatever kind |
| TaskExecution.SpanTellsAll | engine/internal/scheduler/scheduler.go:339-445 | a span accounts for all its attempts: all but the last failed, why it ended, its error text, decisions are the ordered concatenation, tokens the sums over the calls made and provider and model those of the first report, for any cancellation point |
| TaskExecution.UncancelledOutcome | engine/internal/scheduler/scheduler.go:409-441 | without cancellation a task fails exactly when all max+1 calls fail, having used them all; otherwise it ends on its first success |
| TaskExecution.ExecuteTask | engine/internal/scheduler/scheduler.go:318-445 | the retry loop returns the specified span, which tells all about its attempts, and its time; with policy `none` or no base it never sleeps, with `fixed` it sleeps the base and with exponential backoff the doubled base once per retry, of which jitter leaves at least half; unresolved inputs cost one attempt without a call; waiting for each permit while other tasks take and give back theirs, it leaves the number held as those others leave it, on every path |
| TaskExecution.FixedBackoff | engine/internal/scheduler/scheduler.go:469-485 | fixed backoff is the base once per retry without jitter and between half of that and all of it with jitter |
| TaskExecution.NoBackoff | engine/internal/scheduler/scheduler.go:469-485 | backoff `none`, whatever its base, and a base that is not positive, whatever the policy, never sleep |
| TaskExecution.ExponentialBackoff | engine/internal/scheduler/scheduler.go:469-485 | exponential backoff over n retries is base*(2^n-1) without jitter and between half of that and all of it with jitter |
| SchedulerInvariant.DescendantsBlocked | engine/internal/scheduler/scheduler.go:239-246 | everything above a task without a published result has a positive counter |
| SchedulerInvariant.SuccessCounts | engine/internal/scheduler/scheduler.go:240-246 | a success lowers each dependent's counter by the number of entries naming the task, and a counter reaching zero never belongs to a task with a span |
| SchedulerInvariant.NoneLeft | engine/internal/scheduler/scheduler.go:213-213 | with nothing ready and nothing in flight, acyclicity leaves no task without a span |
| SchedulerInvariant.StepInv | engine/internal/scheduler/scheduler.go:213-265 | every action of the main loop keeps the invariant: partition of tasks, exact counters, closed snapshots, closed skipping |
| SchedulerInvariant.RunInv | engine/internal/scheduler/scheduler.go:213-265 | the invariant holds in every state of every run |
| SchedulerProperties.RunsTerminate | engine/internal/scheduler/scheduler.go:213-265 | every run has at most two actions per task and two phase changes |
| SchedulerProperties.FinishedIsComplete | engine/internal/scheduler/scheduler.go:290-295 | a finished run has exactly one span for every task, under its own id |
| SchedulerProperties.DispatchedOnce | engine/internal/scheduler/scheduler.go:215-219 | no task is dispatched twice, and each dispatch sees the results of all dependencies |
| SchedulerProperties.ReceivedOnce | engine/internal/scheduler/scheduler.go:222-258 | at most one span per task is ever received, drain included |
| SchedulerProperties.CounterExact | engine/internal/scheduler/scheduler.go:125-130 | in every reachable state before a fatal failure a counter equals the number of dependency entries, with multiplicity, that have not succeeded, and is zero exactly for started tasks |
| SchedulerProperties.SucceededClosed | engine/internal/scheduler/scheduler.go:239-261 | in every reachable state, drains included, dependencies of succeeded tasks succeeded |
| SchedulerProperties.MarksOnlyWaiting | engine/internal/scheduler/scheduler.go:196-210 | marking descendants never touches a ready, in-flight or finished task |
| SchedulerProperties.SkippedExactly | engine/internal/scheduler/scheduler.go:263-263 | without cancellation or fatal failure the skipped tasks are at every moment exactly the strict descendants of failed ones |
| SchedulerProperties.FailedExactly | engine/internal/scheduler/scheduler.go:247-262 | a run has failed exactly when it has received the span of a task that did not succeed and is under `fail_fast` |
| SchedulerProperties.StatusExact | engine/internal/scheduler/scheduler.go:268-278 | in a run in which no received span says cancelled, the status is succeeded if and only if every task succeeded, for all error policies |
| SchedulerProperties.TruthfulExactly | engine/internal/scheduler/scheduler.go:248-278 | for a dependency graph and error policies, with arbitrary spans coming back: every finished run reports succeeded exactly when all tasks succeeded, if and only if every task is under `fail_fast` |
| SchedulerProperties.CancelledRunReportsSuccess | engine/internal/scheduler/scheduler.go:267-278 | for any dependency graph and policies with a task under `continue`: if that task comes back cancelled and the others succeeded, the run reports success |
| SchedulerProperties.LoneCancelledTask | engine/internal/scheduler/scheduler.go:267-278 | the smallest such graph: the only task comes back cancelled, the report says succeeded |
| SchedulerProperties.TotalsAreSums | engine/internal/scheduler/scheduler.go:233-258 | in every reachable state the totals plus what drained spans leave out of them are the sums over all executed tasks |
| SchedulerProperties.NothingDrained | engine/internal/scheduler/scheduler.go:248-258 | before a fatal failure nothing is drained, so the totals are the sums |
| MainLoop.BuildBookkeeping | engine/internal/scheduler/scheduler.go:123-130 | counters are the lengths of the dependency lists, and a task is listed under a dependency as often as it names it |
| MainLoop.FatalIdsExact | engine/internal/spec/spec.go:118-124 | a task is under `fail_fast` exactly when it says so, or says nothing and the workflow does |
| MainLoop.InitialReady | engine/internal/scheduler/scheduler.go:165-170 | the queue starts with exactly the tasks without dependencies, each once |
| MainLoop.ReleaseChildren | engine/internal/scheduler/scheduler.go:241-246 | the decrement loop lowers each counter by its number of entries and queues exactly those reaching zero, once each |
| MainLoop.MarkDescendantsSkipped | engine/internal/scheduler/scheduler.go:196-210 | the stack walk, although it stops at tasks with spans, marks every strict descendant without a span and nothing else; a mark is an empty skipped span |
| MainLoop.MarkAllUndispatchedSkipped | engine/internal/scheduler/scheduler.go:187-194 | every task without a span is marked by an empty skipped span, the others keep theirs |
| SchedulerRun.Loop.DispatchNext | engine/internal/scheduler/scheduler.go:215-219 | one dispatch action, with a copy of the results |
| SchedulerRun.Loop.TakeSuccess | engine/internal/scheduler/scheduler.go:239-246 | the whole state after a success |
| SchedulerRun.Loop.TakeFatal | engine/internal/scheduler/scheduler.go:248-252 | the whole state after a fatal failure |
| SchedulerRun.Loop.TakeFailure | engine/internal/scheduler/scheduler.go:247-263 | the whole state after a survivable failure, by the pruned walk |
| SchedulerRun.Loop.Receive | engine/internal/scheduler/scheduler.go:222-264 | one receive action of the transition system, keeping the invariant; the loop starts to drain exactly when the task did not succeed and it, or in its silence the workflow, says `fail_fast` |
| SchedulerRun.Loop.DrainOne | engine/internal/scheduler/scheduler.go:254-258 | one drain action |
| SchedulerRun.Loop.FinishDrain | engine/internal/scheduler/scheduler.go:259-261 | the end of an aborted run: everything without a span is skipped |
| SchedulerRun.RunLoop | engine/internal/scheduler/scheduler.go:213-265 | the loop ends in a finished state reachable in the transition system after at most one receive per task |
| SchedulerRun.OverallStatus | engine/internal/scheduler/scheduler.go:268-278 | failed exactly when the run was aborted or some span failed |
| SchedulerRun.OrderedSpans | engine/internal/scheduler/scheduler.go:290-295 | one span per task in specification order |
| SchedulerRun.SourceHasNoDependencies | engine/internal/report/report.go:92-100 | in a run's spans a succeeded task with no succeeded dependency has no dependency at all |
| SchedulerRun.Run | engine/internal/scheduler/scheduler.go:114-309 | for any validated workflow and any outcomes: termination with at most one receive per task, in a state reached with the spans those outcomes send; the run is aborted exactly when one of them is the unsuccessful span of a task that, or in its silence the workflow, says `fail_fast`; a complete ordered report, its status, totals and errors; an output only of a successful run, namely the output of the succeeded task that the output template refers to; and a critical path, stated on spans and dependency lists, from a task without dependencies to a task on which nothing that succeeded depends |
| PythonScheduler.QueueGuardRedundant | sdk-python/orchestrator/engine.py:240-243 | a counter that reaches zero never belongs to a skipped task |
| PythonScheduler.StartAll | sdk-python/orchestrator/engine.py:214-222 | the guard before starting lets every queued task through, and something is running afterwards |
| PythonScheduler.TakeBatch | sdk-python/orchestrator/engine.py:227-262 | a batch of finished tasks, in any order, is a sequence of receive actions; the error remembered is that of the first failed span |
| PythonScheduler.RunLoop | sdk-python/orchestrator/engine.py:213-264 | on `continue` runs the Python loop is a run of the same transition system, finished after at most one span per task, never leaving early; its error list is the first error, or empty if that has no text |
| Confluence.SpanLocal | engine/internal/scheduler/scheduler.go:328-334 | what a task does depends only on the outputs of its transitive dependencies |
| Confluence.SequentialExplained | engine/internal/scheduler/scheduler.go:212-265 | the sequential evaluator's result is determined by itself: a task whose dependencies succeeded did what any view of its ancestors' outputs makes it do, every other is skipped |
| Confluence.Confluent | engine/internal/scheduler/scheduler.go:212-265 | every completion order agrees at every moment with the sequential evaluator in any topological order, and ends with exactly its spans apart from durations |
| Confluence.TwoRunsAgree | engine/internal/scheduler/scheduler.go:212-265 | two finished runs have the same spans apart from durations and the same results |
| Confluence.ReportsAgree | engine/internal/scheduler/scheduler.go:229-278 | two finished runs also report the same status, the same errors up to order, and, with retry limits that are not negative, the same totals |
| SchedulersAgree.ReachedIsSequential | engine/internal/scheduler/scheduler.go:212-265 | any finished run whose spans are what the tasks do with what they saw has the spans and results of the sequential evaluator |
| SchedulersAgree.ReachedIsAlike | sdk-python/orchestrator/engine.py:213-264 | tasks that agree with the evaluator in status and output only, whatever their usage, decisions, attempts and error texts, still lead to its statuses, outputs and results |
| SchedulersAgree.BothSchedulers | sdk-python/orchestrator/engine.py:213-264 | the Go and the Python loop on the same workflow, each with its own completion order and batches, the Python tasks with usage and error texts of their own, end with the same status and output for every task and the same results |
| CriticalPath.OptimalStep | engine/internal/report/report.go:89-107 | own duration plus the best over succeeded dependencies is the greatest total of a chain ending at the node |
| CriticalPath.CameFromLink | engine/internal/report/report.go:92-107 | the first dependency of greatest cost is a succeeded dependency than which none costs more, and accounts for the node's cost |
| CriticalPath.StepsTotal | engine/internal/report/report.go:139-142 | following back pointers gives a chain whose total is the cost of its last task, less what its first task's cost exceeds its own duration by |
| CriticalPath.BestAtSinksIsLongest | engine/internal/report/report.go:110-126 | a chain that is best among those ending at sinks is best among all chains |
| CriticalPath.LongestMeans | engine/internal/report/report.go:60-148 | the longest chains are those of succeeded tasks, each in the dependency list of the next, with the greatest sum of the durations their spans show |
| CriticalPath.ReverseInPlace | engine/internal/report/report.go:144-146 | the swap loop reverses the array |
| CriticalPathGo.PathFinder.Cost | engine/internal/report/report.go:78-108 | the memoised recursion returns the greatest total of a chain ending at the node; the memo never yields an unfinished entry, and each back pointer is the first dependency of greatest cost |
| CriticalPathGo.CountIncoming | engine/internal/report/report.go:62-72 | a count is absent or zero exactly for tasks no succeeded task depends on |
| CriticalPathGo.PickEnd | engine/internal/report/report.go:112-126 | for any iteration order the endpoint is the first sink in it whose cost is at least that of every sink |
| CriticalPathGo.FollowBack | engine/internal/report/report.go:139-142 | the back pointers lead from the endpoint through first best dependencies to a task with no succeeded dependency |
| CriticalPathGo.SinkOrNothing | engine/internal/report/report.go:127-135 | if anything succeeded there is a sink, so the fallback is never needed |
| CriticalPathGo.ReturnsLongest | engine/internal/report/report.go:53-60 | the trail to the first best sink is a longest chain of succeeded tasks, from a source to a sink |
| CriticalPathGo.FindCriticalPath | engine/internal/report/report.go:60-148 | for any iteration order the result is the trail to the first best sink; stated on spans and dependency lists: a chain of succeeded tasks such that none takes longer, from a task with no succeeded dependency to one with no succeeded dependent, empty only if nothing succeeded; the fallback is never used |
| CriticalPathPython.PathFinder.Cost | sdk-python/orchestrator/report.py:138-151 | the memoised closure terminates with best costs; a back pointer is the first dependency of greatest cost if that costs more than zero, and otherwise absent |
| CriticalPathPython.MaxByCost | sdk-python/orchestrator/report.py:156-156 | the endpoint is the first of the listed tasks that has the greatest cost |
| CriticalPathPython.FollowBack | sdk-python/orchestrator/report.py:157-161 | the back pointers lead through tasks that cost something to one below which everything is free |
| CriticalPathPython.ReturnsLongest | sdk-python/orchestrator/report.py:133-134 | the paid trail to the first task of greatest cost is a longest chain of succeeded tasks |
| CriticalPathPython.ComputeCriticalPath | sdk-python/orchestrator/report.py:133-163 | for any insertion order the result is the paid trail to the first task of greatest cost; stated on spans and dependency lists: a chain of succeeded tasks such that none takes longer, empty only if nothing succeeded |
| CriticalPathCompare.BothEngines | sdk-python/orchestrator/report.py:138-163 | on every trace, for every iteration and insertion order, both engines return chains of succeeded tasks such that none takes longer, with the same sum of durations, or both nothing |
| CriticalPathCompare.GoDetermined | engine/internal/report/report.go:114-126 | trace and iteration order determine the Go chain |
| CriticalPathCompare.PyDetermined | sdk-python/orchestrator/report.py:153-162 | trace and insertion order determine the Python chain |
| CriticalPathCompare.SameEnd | sdk-python/orchestrator/report.py:143-148 | from the same endpoint the Python chain is the Go chain without its leading tasks of zero cost |
| CriticalPathCompare.SameChainExactly | sdk-python/orchestrator/report.py:143-156 | for given orders the chains are equal exactly when the endpoints are and the Go chain is a single task or starts with one that took time |
| CriticalPathCompare.AlwaysSameExactly | engine/internal/report/report.go:89-126 | the chains are equal for every order exactly when one task alone has the greatest cost and the way to it is a single task or starts with one that took time |
| CriticalPathCompare.PositiveSameExactly | engine/internal/report/report.go:110-126 | if every task took time, the chains are equal for every order exactly when one task alone has the greatest cost |
| CriticalPathCompare.PositiveSourceToSink | sdk-python/orchestrator/report.py:143-156 | if every task took time, the Python chain too runs from a source to a sink |
| CriticalPathCompare.UniqueLongest | sdk-python/orchestrator/report.py:133-163 | a chain than which every other is shorter is what both engines return |
| CriticalPathCompare.TwoEqualTasks | engine/internal/report/report.go:114-126 | two independent tasks of 5 ms: each engine returns the one its order puts first |
| CriticalPathCompare.TwoFreeTasks | sdk-python/orchestrator/report.py:143-148 | two tasks of zero duration in a row: the Go engine returns both, the Python engine the one its order puts first, which after a run of its own loop is the dependency |
| Buckets.RefillTwice | engine/internal/ratelimit/bucket.go:63-71 | a refill at an instant in between changes no later level |
| Buckets.LazyIsContinuous | engine/internal/ratelimit/bucket.go:63-71 | refilling at any ordered instants gives the level of one refill at the end |
| Buckets.FailedPollInvisible | engine/internal/ratelimit/bucket.go:45-60 | a failed poll changes no later level |
| Buckets.DelayIsLeast | engine/internal/ratelimit/bucket.go:51-52 | for requests up to the capacity the computed wait is the least delay: polls succeed from then on and not before |
| Buckets.TooLargeNeverGranted | engine/internal/ratelimit/bucket.go:43-60 | a request above the capacity is never granted |
| Buckets.WindowBound | engine/internal/ratelimit/bucket.go:42-71 | for any polls of any waiters, tokens stay in range and grants plus the remaining level are at most the initial level plus the inflow |
| Buckets.BurstBound | engine/internal/ratelimit/bucket.go:42-71 | tokens granted in a window are at most the capacity plus rate times its length |
| Buckets.OnlyGrantsMatter | engine/internal/ratelimit/bucket.go:42-71 | erasing all failed polls changes neither the grants nor any later level |
| Buckets.Bucket.constructor | engine/internal/ratelimit/bucket.go:25-34 | a new bucket is full, with capacity one window's requests |
| Buckets.Bucket.Refill | engine/internal/ratelimit/bucket.go:63-71 | the new level is the lazily refilled one and in range |
| Buckets.FoundAlone | engine/internal/ratelimit/bucket.go:43-60 | a waiter with nobody else around finds at each poll the level it would have found without its earlier, failed ones |
| Buckets.SecondPollSuffices | engine/internal/ratelimit/bucket.go:51-59 | a lone waiter for no more than the capacity that sleeps the reported wait finds enough at its second poll at the latest |
| Buckets.Bucket.Poll | engine/internal/ratelimit/bucket.go:44-53 | one pass through the lock grants exactly when the lazily refilled level suffices, takes n or nothing, and reports the least delay |
| Buckets.Bucket.AcquireN | engine/internal/ratelimit/bucket.go:42-61 | whatever other waiters do between its polls, the request is granted at the first poll that finds n tokens, and the bucket ends as all passes in their order leave it; if cancelled, no poll found n; a lone waiter that sleeps the reported wait is granted by its second poll |
| Buckets.TokenBucket.AcquireOnce | sdk-python/orchestrator/ratelimit.py:35-44 | one pass: refused exactly above the capacity without touching the bucket; otherwise grants, computes the sleep and changes the bucket as the Go poll does |
| Buckets.TokenBucket.Acquire | sdk-python/orchestrator/ratelimit.py:34-45 | refused at once exactly above the capacity; otherwise granted at the first poll that finds enough, whatever other waiters do in between |
| EngineInvariant.MovePermits | engine/internal/scheduler/scheduler.go:342-394 | on every path of every attempt permits are taken and given back exactly as the goroutine's position says |
| EngineInvariant.RunEInv | engine/internal/scheduler/scheduler.go:152-265 | in every interleaving: the scheduler invariant, one goroutine per task in flight, every sent span exactly once in the channel until it is received, permits counted exactly and within the bound |
| EngineInvariant.ConcurrencyBound | engine/internal/scheduler/scheduler.go:342-394 | at most MaxParallel tasks are inside the executor at once |
| EngineInvariant.ExecutorBound | engine/internal/scheduler/scheduler.go:342-394 | counted on the steps of a run: executor calls begun and not yet returned are at most MaxParallel at every moment |
| EngineInvariant.PermitsAllFree | engine/internal/scheduler/scheduler.go:152-265 | when the main loop has finished, no goroutine is left, every permit is free and the channel is empty |
| EngineInvariant.SendNeverBlocks | engine/internal/scheduler/scheduler.go:153-184 | a goroutine that wants to send its span always finds room in the channel |
| EngineInvariant.ReceiveEnabled | engine/internal/scheduler/scheduler.go:222-258 | a span in the channel can always be received |
| EngineRuns.RunRefines | engine/internal/scheduler/scheduler.go:178-265 | the main loop of every engine run is, at every moment, a run of the scheduler's transition system that has reached the same state |
| EngineRuns.GoroutineOnce | engine/internal/scheduler/scheduler.go:178-219 | in every interleaving a task gets one goroutine at most, and it sees the outputs of all its dependencies, which have succeeded |
| EngineRuns.SpanTakenOnce | engine/internal/scheduler/scheduler.go:222-258 | in every interleaving, drains included, one span per task at most is taken from the channel |
| EngineRuns.MainUncancelled | engine/internal/scheduler/scheduler.go:342-394 | without outside cancellation no span received before a fatal failure is that of a cancelled task |
| EngineRuns.EngineFailedExactly | engine/internal/scheduler/scheduler.go:247-262 | in every interleaving the run has failed exactly when the main loop, outside a drain, has taken the span of a task that did not succeed and that, or in its silence the workflow, says `fail_fast` |
| EngineRuns.CancelledExactly | engine/internal/scheduler/scheduler.go:249-252 | the tasks are cancelled exactly when something outside has cancelled the run or such a span has been taken |
| EngineRuns.EngineComplete | engine/internal/scheduler/scheduler.go:290-295 | a finished engine run has one span for every task, under its own id |
| EngineRuns.EngineStatusExact | engine/internal/scheduler/scheduler.go:268-278 | without outside cancellation a finished engine run reports succeeded exactly when every task succeeded, for any mix of policies |
| EngineRuns.EngineStatusExactAllFatal | engine/internal/scheduler/scheduler.go:248-278 | with any outside cancellation the same holds if every task is under `fail_fast` |
| EngineRuns.EngineSkippedExactly | engine/internal/scheduler/scheduler.go:196-263 | without outside cancellation and before a fatal failure, the skipped tasks of an engine run are at every moment exactly the strict descendants of the failed ones |
| EngineProgress.EngineTerminates | engine/internal/scheduler/scheduler.go:213-265 | in every interleaving the steps other than clock steps, outside cancellations and refused polls are bounded by the potential of the first state |
| EngineProgress.SomethingUseful | engine/internal/scheduler/scheduler.go:342-394 | in every unfinished state that keeps the invariants some goroutine or the main loop can move on after a wait: permits, limiters and channel cannot deadlock |
| EngineProgress.CanFinish | engine/internal/scheduler/scheduler.go:213-265 | every run of the engine, whatever happened in it, can be continued to its end by waiting and by steps of goroutines and main loop alone |
| EngineCancellation.PlanLies | engine/internal/scheduler/scheduler.go:267-278 | whenever the tasks of a set under `continue` can be held at their first permit while the others succeed, the engine has a run with an outside cancellation, no executor call after it, every task of the set skipped, and a report that says succeeded |
| CancellationExact.CancelledEngineReportsSuccess | engine/internal/scheduler/scheduler.go:342-350 | if inputs always resolve and no call fails, this holds for every single task under `continue`: the engine can cancel that task and report success |
| CancellationExact.EngineTruthfulExactly | engine/internal/scheduler/scheduler.go:248-278 | over all workflows with the same dependencies and policies, every finished engine run reports truthfully under any outside cancellation if and only if every task is under `fail_fast` |
| CancellationWorkflow.RunFacts | engine/internal/scheduler/scheduler.go:318-350 | in every engine run, cancelled or not, a succeeded task has the evaluator's span up to its duration, a task that came back unfailed could resolve its inputs on the evaluator's outputs, and before a fatal failure tasks under `fail_fast` are unsuccessful only if they never ran |
| CancellationWorkflow.CanLieLies | engine/internal/scheduler/scheduler.go:267-278 | if some task is under `continue` and every task with only `fail_fast` tasks above it can be passed, a run cancels what it gets to, calls no executor after that, and reports success |
| CancellationWorkflow.WorkflowTruthfulExactly | engine/internal/scheduler/scheduler.go:248-350 | for one given workflow, executor and inputs: every finished engine run reports truthfully under any outside cancellation if and only if that condition fails |
| CancellationWorkflow.UnresolvedRootIsHonest | engine/internal/scheduler/scheduler.go:328-334 | a task under `continue` without dependencies whose inputs do not resolve fails before it can be cancelled, so no report of the workflow lies |
| EngineRates.TokenWindow | engine/internal/ratelimit/bucket.go:42-71 | in any interleaving the tokens a limiter grants between two moments are at most its capacity plus the inflow |
| EngineRates.CallsFromStart | engine/internal/scheduler/scheduler.go:352-390 | the model's count of executor calls under a limiter up to time t is at most requests plus rate times t |
| EngineRates.CallWindow | engine/internal/scheduler/scheduler.go:342-394 | the model's count of executor calls under a limiter in any window is at most requests plus rate times its length plus MaxParallel |
| EngineRates.CountersExact | engine/internal/scheduler/scheduler.go:352-390 | those counts are the numbers of call steps of the run, all of them or those of the tasks that name a provider |
| EngineRates.RateKept | engine/internal/scheduler/scheduler.go:342-394 | counted on the steps of a run: in any window all executor calls, or those of the tasks of one provider, are at most the requests of the limit plus requests / per times its length plus MaxParallel, and from the start of the run without MaxParallel |
| EngineRates.NoEarlyRefusal | engine/internal/ratelimit/bucket.go:25-71 | no limiter refuses a task before it has granted as many tokens as it has requests |
| EngineInputs.InputIsOutput | engine/internal/scheduler/scheduler.go:328-380 | in every interleaving a call of a task whose input field is a reference to a dependency's output is made with that dependency's output in that field, and the dependency has succeeded |
| EngineInputs.OnlyInput | engine/internal/scheduler/scheduler.go:328-380 | a task whose only input is `${d.output}` is called with the output of d alone |
| EngineConfluence.EngineConfluent | engine/internal/scheduler/scheduler.go:178-265 | every interleaving of the uncancelled engine under `continue` agrees with the sequential evaluator, at every moment and at the end |
| EngineConfluence.ReceivedFaithful | engine/internal/scheduler/scheduler.go:318-445 | without outside cancellation, for any mix of error policies, every span the main loop acts on is what the retry loop gives for what the task saw |
| EngineTotals.TaskConserved | engine/internal/scheduler/scheduler.go:336-441 | in every state of every interleaving, cancellation included, a task's span counts one attempt for each executor call, each attempt cut off before its call and unresolved inputs; its tokens are the sums over the calls that returned and its decisions their ordered concatenation |
| EngineTotals.TotalsOverSpans | engine/internal/scheduler/scheduler.go:233-258 | the totals, plus what a drain leaves out, are the sums over the spans of the report; before a fatal failure they are so as they stand |
| EngineTotals.TotalsConserved | engine/internal/scheduler/scheduler.go:233-258 | in every state of every interleaving, totals, drained spans and what unreceived goroutines hold add up to the tokens of all calls that returned and, for retries plus executed tasks, to all calls, cut-off attempts and unresolved inputs |
| Correlation.InvocationIdInjective | engine/internal/scheduler/scheduler.go:380-380 | within a run, invocation ids are equal exactly when task id and attempt are, dashes in ids included |
| Correlation.StepInv | engine/transport/stdio/stdio.go:155-247 | every atomic step, whatever callers and client do, keeps: pending entries lead to registered calls with that id, results reach only calls of their id, a call has no more answers than the client sent under its id, and the only call of an id can be found |
| Correlation.OnlyOwnResult | engine/transport/stdio/stdio.go:241-246 | a call that returns a result returns one sent under its own id |
| Correlation.PumpNeverBlocks | engine/transport/stdio/stdio.go:203-203 | if no invocation is answered twice the pump's send never blocks, in any interleaving with cancellation |
| Correlation.SecondAnswerSticks | engine/transport/stdio/stdio.go:168-203 | an invocation that may be answered twice can block the pump for good: a run after which no continuation delivers the held result |
| Correlation.PumpSticksExactly | engine/transport/stdio/stdio.go:168-203 | some run blocks the pump for good if and only if an invocation that is ever made may be answered twice |
| Correlation.ReuseLoses | engine/transport/stdio/stdio.go:218-227 | an id used twice: the first call's deferred deletion removes the second call's entry |
| Correlation.AnswersFoundExactly | engine/transport/stdio/stdio.go:168-227 | every registered call can be found under its id in every run if and only if no id is used twice |
| Correlation.AnswerIsRouted | engine/transport/stdio/stdio.go:168-174 | with ids used once, the answer to a registered call goes to that call's channel |
| EngineCalls.CalledOnce | engine/internal/scheduler/scheduler.go:339-394 | in every interleaving each attempt of a task makes one executor call at most |
| EngineCalls.InvocationsDiffer | engine/internal/scheduler/scheduler.go:380-380 | no two executor calls of a run share an invocation id |
| EngineCalls.EngineTransport | engine/transport/stdio/stdio.go:155-247 | under the calls of an engine run every registered call can be found, and with a client that answers no invocation twice the pump never blocks |
| Correlation.Transport.Register | engine/transport/stdio/stdio.go:218-222 | a fresh channel is entered under the invocation id, in the place of any older one |
| Correlation.Transport.Lookup | engine/transport/stdio/stdio.go:168-174 | the channel is looked up under the lock; unknown ids are dropped |
| Correlation.Transport.SendResult | engine/transport/stdio/stdio.go:203-203 | the first result under an id enters its channel without waiting |
| Correlation.Transport.Select | engine/transport/stdio/stdio.go:241-246 | the call takes its own result or is abandoned |
| Correlation.Transport.Unregister | engine/transport/stdio/stdio.go:223-227 | the deferred deletion removes exactly the call's entry |

## Left out

- PythonScheduler.TakeBatch: the fail-fast branch is not modelled; see the next line.
- PythonScheduler.RunLoop: the fail-fast branch is not modelled, because it discards results that finished in the same batch (sdk-python/orchestrator/engine.py:228-260); spans are arbitrary, because the Python engine keeps usage of the last attempt only and lets template errors escape (sdk-python/orchestrator/engine.py:298); its tool-call total is not modelled.
- Tool-call totals: the Go engine never accumulates them.
- The message of an unresolved reference: which key it names depends on map order, so only success or failure is modelled.
- Templates.ResolveString: trims as the Go engine does; exactly where Python's trimming differs is Templates.TrimsAgreeExactly.
- JSON encoding and decoding, NDJSON framing, the gRPC server, subprocess handling, binary lookup: input and output only.
- Event streaming: events may be dropped, so delivery is not promised.
- Timeouts: a timed-out call is an executor call that returned an error.
- Duration parsing, default filling, report serialisation and the workflow dictionary round trip: single-branch facts or plumbing.
- LLM providers, MCP integration, the skill registry and packaging.
