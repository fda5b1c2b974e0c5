# Verified model of the execution kernel and its runtime companions

The kernel turns a plan of units (an RIR) into an execution graph, splits the graph into
layers and the layers into conflict-free waves, and drives every unit through a small status
machine while answers come back in any order. This project models that machinery in Dafny
and proves what its invariants, its replay and its four consistency checks are there to
guarantee, for every plan, every answer and every order of answers. Five smaller state
machines of the runtime are modelled beside it.

| part | files |
|---|---|
| identifiers, graphs, plans | `Ids`, `Options`, `Digraph`, `Plans` |
| graph builder and validator | `Wiring`, `Search`, `Kahn`, `Builder`, `Dangling` |
| waves | `Colouring`, `Waves` |
| status machine and commit engine | `Statuses`, `Commit` |
| scheduler and its runs | `Activating`, `Runs`, `Courses`, `CalmRuns`, `Scheduling`, `Kernel`, `Hanging` |
| journal, trace, replay, verification | `Observers`, `Verifying`, `Robustness`, `Replaying`, `Consistency`, `Alternative` |
| loader and compiler of plans | `Loader`, `Compiler`, `Compilation` |
| fair queue | `FairQueues`, `Fairness` |
| release queue | `Retrying`, `ReleaseRuns`, `ReleaseQueues`, `Orchestrating` |
| circuit breaker, token bucket | `CircuitBreaking`, `TokenBuckets` |
| action bus | `Deliveries`, `ActionBuses`, `ConcurrentPublishes` |

## How the model is built

Objects that the program changes in place are classes: the status map, the commit engine, the
scheduler, the journal, the trace collector, the fair queue, the release queue, the breaker,
the bucket and the bus. Each method is proved against a specification on values, and the
properties are proved on those values.

A run of the kernel is the list of accepted commits (`Runs.Run`): each one is an ordinary step
of the scheduler or a termination that a deadline, a cancellation or an escalation forces.
`Scheduling.Scheduler.RunLoop` is proved to write only such logs, whatever dispatch answers
and in whatever order. Everything that holds at every moment of every run is then a lemma
about logs.

The surroundings of a run are a parameter (`Courses.Surroundings`): deadlines, cancellations
and the time at which the answer of each node arrives; any order of answers is that of some
times. With them given a run is determined, and `Courses` says how it goes: the statuses
before every wave, which wave stops it, and what it leaves. The main loop is proved to keep
to that course in all surroundings, and what deadlines and orders of answers can change is
then a lemma about courses.

A run is *calm* when nothing but an escalation forces a status. That is so (`Kernel.Calm`) when
rules name predecessors only, edge sources are units, and either there are no deadlines and no
cancellations, or every unit becomes terminal by itself: every unit with predecessors has a rule
that can be decided and dispatch answers, without escalating, with an error, SUCCESS, FAILURE or
TERMINATED (a *cooperative* dispatch). In a calm run the status of every node is, up to an
escalation, `Runs.Meaning`, which is defined by recursion over the graph and mentions neither
layers, waves nor time. It is BLOCKED for a node whose rule is never decided, and RUNNING for one
whose answer the engine refuses. `CalmRuns` proves that the course of a calm run comes to it.

`NeverReturns` is an explicit result of the main loop: waiting for a wave without a deadline
does not end in the program when some node of the wave cannot become terminal.

## What the proofs found

* A plan with an edge whose source is no unit can pass the loader (`Dangling.PlanIsValid`) and be accepted with all
  its units reachable, and still keep a unit out of every layer (`Dangling.AcceptedButNotLayered`), so that no run
  dispatches it (`Dangling.UnlayeredNeverRuns`). Kahn's layers hold every unit exactly when the graph has no
  cycle and every edge source is a unit (`Builder.LayersPartitionIff`).
* The first wave that stops a calm run decides how it ends (`Kernel.Execute`). A wave stops it if it dispatches a
  node whose answer escalates, or a node while it holds another that never becomes terminal; in the second
  case, and no escalation, the run never returns. A plan of three units that the loader and the builder accept is
  enough for that: a root, a unit that requires it, and beside that one a unit with a rule the kernel does not
  know (`Hanging.RunForever`). For one wave under any deadlines the exact conditions are in
  `Scheduling.Scheduler.RunWave`.
* Deadlines and cancellations decide whether a run returns, but not what it then leaves: runs of one plan that
  complete leave the same statuses, and if one that returns escalates, so does every other, in the same
  wave (`Courses.ReturnsAlike`). A deadline terminates units of its own wave only (`Kernel.TerminatedByOwnWave`).
* What an escalation leaves behind depends on the order in which answers arrive, unless all other accepted answers
  of its wave are TERMINATED too; exactly then the final statuses are determined
  (`CalmRuns.FinalStatusesAreFixedIff`). So the replay of a run that completes never diverges
  (`Replaying.CompletedReplaysAgree`), and that of one that escalates can, with exactly that exception
  (`Replaying.ReplaysAgreeIff`, `Replaying.CalmReplaysAgreeIff`).
* Whether the consistency check can fail on a run that went as the plan says is decided by the plan alone. It passes
  for every cooperative dispatch exactly when no dependency edge leads from a unit to one that can succeed, by the
  rules, without it (`Robustness.RespectedIff`, `Consistency.SoundIffRobust`). The dispatch in which only that
  unit fails is the counterexample (`Robustness.OnlyFailureTells`). An `any_success` unit with two candidates is
  of that kind: on the three-unit plan of `Alternative.CheckFails` the check never passes when one candidate fails.
  Plans in which dependency edges enter only `all_success` units that require their source are robust
  (`Robustness.RequiredIsRobust`).
* Compiled plans carry the rule `true`, which the kernel does not evaluate. Running one dispatches nothing:
  imports stay BLOCKED, other files end SKIPPED, and the structural check passes only if there is no project
  import at all (`Compilation.CompiledNeverRuns`).
* Compiled output is accepted by the loader, but the builder accepts it exactly when no chain of imports is longer
  than 128 ids and no id is imported more than 1024 times (`Compilation.CompiledAcceptance`). A chain of
  more than two ids needs a file whose path is the dependency id of an import; a closed chain makes the plan
  cyclic (`Compilation.CyclicIff`), and one file that imports itself by that id suffices
  (`Compilation.SelfImportIsRejected`).
* The circuit breaker can reject all calls for ever exactly when it allows fewer probes than
  failures are needed to open it, which is so for the default settings (`CircuitBreaking.WedgesIff`). One way
  there: a call outlives the failures and resets their count, and after the recovery time all probes are late.
* A waiting session of the fair queue can be passed over for ever exactly when it waits for the next lap and the
  current one can be kept going: the queue has room for a newcomer, or more than one session is left in the lap, so
  that a service makes room (`Fairness.CanStarveIff`). Two sessions that take turns with one request each are enough, and four
  calls on an empty queue lead there (`Fairness.Starves`, `Fairness.StarvationArises`). A session of the current
  lap is served in its turn (`Fairness.ServedInLap`).
* Publish calls side by side can deliver an id more than once exactly when two of them are given live actions with
  that id and it was not delivered before; no call of the endpoint need fail (`ConcurrentPublishes.RepeatsIff`).
  No worker delivers an id twice (`ConcurrentPublishes.DeliveredOncePerWorker`).
* When two queued releases have one id, the later one is taken but never settled: its outcome overwrites
  the earlier entry, even a completed one (`Orchestrating.RoundSettlesIff`,
  `Orchestrating.StrandedIff`). A restart likewise abandons every entry in flight
  (`ReleaseRuns.RestartAbandons`).
* The cap on the retry delay is never reached (`Retrying.BackoffDoubles`).

## Model

| member | source | states |
|---|---|---|
| Ids.SortForgetsOrder | mek/internal/ceg/builder.go:170-220 | sorting gives one list per multiset of ids, so nothing after a sort depends on map or input order |
| Ids.BeforeIff | mek/internal/scheduler/scheduler.go:124-163 | the order of ids is that of strings: the first characters that differ decide, and a proper prefix comes first |
| Digraph.PeelsEverythingIff | mek/internal/ceg/builder.go:170-220 | peeling off nodes without waiting predecessors reaches every node if and only if there is no cycle and every edge into a node starts at a node |
| Digraph.LayerIsLongestWalk | mek/internal/ceg/builder.go:170-220 | being peeled off in round k means that the longest walk ending at the node has k arcs, in both directions |
| Wiring.AddNodes | mek/internal/ceg/builder.go:25-46 | one node per unit in unit order, with the unit's rule, no edges and degree zero |
| Wiring.AddEdges | mek/internal/ceg/builder.go:48-64 | predecessors, successors and in-degrees are exactly those of the edge list, repetitions included |
| Wiring.PendingDrops | mek/internal/ceg/builder.go:196-211 | finishing a node lowers the waiting count of another by the number of edges between them |
| Search.HasCycle | mek/internal/ceg/builder.go:113-144 | the three-colour search returns true if and only if the declared graph has a cycle |
| Search.Visit | mek/internal/ceg/builder.go:113-144 | one search step terminates, closes a real cycle or finishes the node; finished nodes lead to finished nodes and lie on no cycle |
| Search.ReachableSet | mek/internal/ceg/builder.go:146-168 | the work-list search collects exactly what a walk from a node of degree zero meets |
| Kahn.Release | mek/internal/ceg/builder.go:204-209 | every in-degree drops by the number of listings and exactly the nodes that reach zero are queued, once each |
| Kahn.FinishLayer | mek/internal/ceg/builder.go:188-214 | one round turns a layer into exactly the next one and keeps the waiting counts exact |
| Kahn.TopoSort | mek/internal/ceg/builder.go:170-220 | the layers are the rounds of peeling, each sorted, up to the last one; each layered node records its layer; the depth is the number of layers |
| Kahn.AssignLayers | mek/internal/ceg/builder.go:216-219 | layer numbers are written into the nodes and nothing else changes |
| Builder.Validate | mek/internal/ceg/builder.go:77-111 | accepts exactly the acyclic, narrow, shallow plans whose search meets as many ids as there are units, and names the first rule broken |
| Builder.Build | mek/internal/ceg/builder.go:19-75 | a graph is built if and only if the plan is acceptable; it represents the plan; a rejection names the first broken rule |
| Builder.LayersPartitionIff | mek/internal/ceg/builder.go:113-220 | the layers partition the units if and only if there is no cycle and every edge source is a unit: the search and Kahn's algorithm agree exactly there |
| Builder.LayerIsLongestPath | mek/internal/ceg/builder.go:170-220 | a unit is in layer k if and only if its longest incoming path has k edges |
| Builder.EdgesGoForward | mek/internal/ceg/builder.go:170-220 | every edge between units goes to a strictly later layer |
| Builder.DepthIsLongestPath | mek/internal/ceg/builder.go:170-220 | the recorded depth is the node count of the longest path |
| Builder.ReachabilityNeverRejects | mek/internal/ceg/builder.go:101-108 | with both edge ends declared and no cycle the search meets exactly the units, so the reachability rule never rejects |
| Builder.ClosedAcceptance | mek/internal/ceg/builder.go:77-111 | a plan with closed edges is accepted if and only if no path has more than 128 units and no unit more than 1024 edges into it |
| Builder.LayersAreDetermined | mek/internal/ceg/builder.go:170-220 | two graphs built from one plan have the same layers |
| Dangling.PlanIsValid | mek/internal/rir/loader.go:38-141 | a two-unit plan with an edge from nowhere passes the loader's checks, which read the units' dependency lists and not the edges |
| Dangling.AcceptedButNotLayered | mek/internal/ceg/builder.go:48-111 | such a plan is accepted, its second unit is reachable, and no layer holds it |
| Dangling.UnlayeredNeverRuns | mek/internal/scheduler/scheduler.go:267-391 | a unit in no layer is not RUNNING at any moment of any run |
| Colouring.ColorGraph | mek/internal/scheduler/scheduler.go:124-163 | the waves are the classes, in id order, of the greedy colouring of the sorted ids |
| Colouring.GreedyIsUnique | mek/internal/scheduler/scheduler.go:124-163 | there is only one greedy colouring for a list and a conflict relation |
| Colouring.WavesForgetOrder | mek/internal/scheduler/scheduler.go:124-163 | the same layer in another order gets the same waves |
| Colouring.ColoursAreProper | mek/internal/scheduler/scheduler.go:124-163 | conflicting nodes never get one colour |
| Colouring.ColoursAreContiguous | mek/internal/scheduler/scheduler.go:124-163 | every colour below a used one is used |
| Colouring.ColourIsBounded | mek/internal/scheduler/scheduler.go:124-163 | a node's colour is at most its number of conflicts |
| Waves.HasOverlap | mek/internal/scheduler/scheduler.go:91-100 | true if and only if the two surface lists share an element |
| Waves.CollectSurfaces | mek/internal/scheduler/scheduler.go:80-89 | the members of every region the unit belongs to |
| Waves.HasDataFlowConflict | mek/internal/scheduler/scheduler.go:102-122 | true if and only if units with the two ids share an input contract |
| Waves.ConflictIff | mek/internal/scheduler/scheduler.go:51-122 | two units conflict if and only if a region holding the first and a region holding the second have a member in common, or both name the same input contract |
| Waves.BuildConflictGraph | mek/internal/scheduler/scheduler.go:51-78 | the symmetric graph of exactly the conflicting pairs of the layer |
| Waves.LayerWaves | mek/internal/scheduler/scheduler.go:32-49 | the waves of one layer are the greedy classes of its conflict graph |
| Waves.WavesSplit | mek/internal/scheduler/scheduler.go:32-163 | the waves of a layer split it: every node in exactly one, none empty, each free of conflicts and of repetitions |
| Waves.WaveCountIsBounded | mek/internal/scheduler/scheduler.go:124-163 | a layer needs at most one wave more than the largest number of conflicts of one node |
| Waves.WavesAreDetermined | mek/internal/scheduler/scheduler.go:32-163 | the waves depend only on the set of nodes and on which pairs conflict |
| Statuses.TerminalStays | mek/internal/commit/engine.go:100-117 | no accepted commit changes a terminal status |
| Statuses.HistoryIsPath | mek/internal/commit/engine.go:36-117 | every node's accepted commits form a path of the transition table that ends at its current status |
| Statuses.HistoryIsShort | mek/internal/commit/engine.go:100-117 | a node is committed at most four times and enters each status at most once, so it is dispatched at most once |
| Statuses.SkippedNeverRan | mek/internal/commit/engine.go:100-117 | a node that is BLOCKED or SKIPPED was never RUNNING |
| Statuses.LivesAreOrdered | mek/internal/commit/engine.go:100-117 | in every log RUNNING comes right after READY, SUCCESS and FAILURE right after RUNNING, READY and SKIPPED right after BLOCKED, and nothing after an ending; the engine accepts every such step |
| Statuses.LogIsShort | mek/internal/commit/engine.go:36-98 | a run over n nodes accepts at most 4n commits |
| Commit.StatusMap.Init | mek/pkg/types/types.go:290-294 | creates or overwrites the entry of one node |
| Commit.StatusMap.Set | mek/pkg/types/types.go:276-282 | changes an existing entry only |
| Commit.StatusMap.AllTerminal | mek/pkg/types/types.go:306-316 | true if and only if every listed node is known and terminal |
| Commit.Engine.Commit | mek/internal/commit/engine.go:36-82 | accepts exactly the first status of a node and the transitions of the table; a refusal changes nothing and is told apart |
| Commit.Engine.Publish | mek/internal/commit/engine.go:84-98 | the event is appended to the channel if there is room; otherwise the channel stays as it is and the event counts as dropped |
| Commit.Engine.NothingIsDropped | mek/internal/commit/engine.go:23-28 | with at most 256 nodes no event is ever dropped, even without a reader |
| Activating.DecisionsLast | mek/internal/ceg/builder.go:223-292 | a rule that is due stays due as more nodes become terminal |
| Activating.NeverBoth | mek/internal/ceg/builder.go:223-292 | a node is never both due to run and due to be skipped |
| Activating.OneIsDue | mek/internal/ceg/builder.go:223-292 | once all candidates are terminal a decidable rule is due one way or the other |
| Activating.AnySuccessIff | mek/internal/ceg/builder.go:234-292 | an `any_success` rule is met if and only if some required or some optional unit is SUCCESS, and out of reach if and only if there are any and all of both lists have ended without success |
| Activating.AllSuccessIff | mek/internal/ceg/builder.go:223-268 | an `all_success` rule is met if and only if all required units are SUCCESS, and out of reach if and only if one of them has ended without success; optional units do not matter |
| Runs.RunsAreValid | mek/internal/scheduler/scheduler.go:167-401 | every commit of a run is one the engine accepts and concerns a node of the graph |
| Runs.ActivationSafety | mek/internal/scheduler/scheduler.go:167-226 | at every moment of every run, forced or not, a READY, RUNNING or dispatched node is justified: all requirements, respectively some candidate, are SUCCESS |
| Runs.MeaningIsTerminal | mek/internal/scheduler/scheduler.go:267-391 | where every rule can be decided and every answer is accepted, the meaning of every node is terminal: its outcome if it fires, SKIPPED otherwise |
| Runs.RunsAgreeWithMeaning | mek/internal/scheduler/scheduler.go:267-391 | at every moment of every calm run on a graph whose rules look back, a terminal status is the node's recursive meaning and any other status is one on the way to it |
| Runs.CalmRunsConverge | mek/internal/scheduler/scheduler.go:267-391 | two finished calm runs with the same dispatch end in the same status map, whatever the orders of answers were |
| Runs.AnySuccessFires | mek/internal/ceg/builder.go:234-292 | over whole calm runs an `any_success` node is dispatched if and only if some required or some optional unit comes to SUCCESS, and given up if and only if there are any and all fail |
| Runs.OptionalSuffices | mek/internal/ceg/builder.go:234-292 | where an optional unit of an `any_success` node is SUCCESS the node is dispatched and ends as its own answer says, whatever the required units have come to |
| Runs.StartedOnSome | mek/internal/ceg/builder.go:234-243 | at every moment of every run, forced or not, an `any_success` node that has started has a SUCCESS among its required and optional units |
| Runs.FinishedAsAnswered | mek/internal/scheduler/scheduler.go:326-352 | a node that ran in a calm run and has ended is FAILURE if its dispatch failed, TERMINATED if its answer asked for escalation, and otherwise what it answered |
| Courses.HeardArises | mek/internal/scheduler/scheduler.go:326-364 | any answers of which exactly one escalates are what some times of arrival let through before the run stops |
| Courses.HeardEndsWith | mek/internal/scheduler/scheduler.go:326-364 | what is taken of a wave that escalates is always one answer that escalates and others that do not |
| Courses.EscalationIsFixedIff | mek/internal/scheduler/scheduler.go:326-364 | the statuses that the escalation of a wave leaves are the same for all times of arrival if and only if every other accepted answer of the wave is TERMINATED |
| Courses.DecisionsAreTaken | mek/internal/scheduler/scheduler.go:278-391 | after a wave with nothing to dispatch, after every layer and at the end of a run, every blocked node whose rule was met before is READY and every one whose rule was out of reach SKIPPED |
| Courses.SkipsCascade | mek/internal/scheduler/scheduler.go:183-200 | decisions are taken in id order: a blocked node that requires one skipped before it in that order is skipped in the same pass |
| Courses.EndsOnce | mek/internal/scheduler/scheduler.go:267-391 | deadlines, cancellations and times of arrival fix how a run ends and with what statuses |
| Courses.ReturnsAlike | mek/internal/scheduler/scheduler.go:267-391 | in whatever surroundings two runs of one plan return, both complete, with the same statuses, or both escalate in the same wave: deadlines and cancellations decide only whether a run returns |
| Courses.TerminatedIff | mek/internal/scheduler/scheduler.go:230-264 | on the course of every run a node ends TERMINATED if and only if its own wave dispatched something and, with all answers in, the node had answered TERMINATED or was not terminal |
| Courses.QuietEnds | mek/internal/scheduler/scheduler.go:267-391 | a run that starts with nothing ready and no decision due completes and changes nothing |
| Scheduling.Scheduler.InitStatusMap | mek/internal/scheduler/scheduler.go:167-179 | every node gets its first status by its degree and rule alone: BLOCKED with predecessors, READY or SKIPPED without |
| Scheduling.Scheduler.Recompute | mek/internal/scheduler/scheduler.go:183-200 | decides the BLOCKED nodes in id order, each on the statuses that the ones before leave, and touches nothing else |
| Scheduling.Scheduler.CollectBlocked | mek/internal/scheduler/scheduler.go:202-211 | exactly the BLOCKED nodes, once each |
| Scheduling.Scheduler.Claim | mek/internal/scheduler/scheduler.go:214-226 | exactly the READY nodes of the wave become RUNNING; claiming never fails |
| Scheduling.Scheduler.Collect | mek/internal/scheduler/scheduler.go:303-364 | takes the answers of the claimed nodes as they arrive, up to and including the first that escalates: exactly those that no escalating answer overtakes are committed, as far as the engine allows |
| Scheduling.Scheduler.WaitWave | mek/internal/scheduler/scheduler.go:230-264 | returns at once if and only if the wave is terminal; never returns if and only if it is not, there is no time limit, and no cancellation comes; a deadline terminates what is left of the wave and nothing else |
| Scheduling.Scheduler.Halt | mek/internal/scheduler/scheduler.go:394-401 | every listed node that is not terminal is terminated and the others keep their status |
| Scheduling.Scheduler.RunWave | mek/internal/scheduler/scheduler.go:278-377 | for every wave of every run: it escalates if and only if the answer of a READY node does, and leaves the answers taken so far and everything else terminated; it is awaited for ever if and only if something is dispatched, nothing escalates, some node stays unfinished and no deadline or cancellation comes, and leaves all answers in; otherwise with something dispatched it leaves the answers and exactly the unfinished nodes of the wave TERMINATED, and with nothing dispatched the recomputed statuses |
| Scheduling.Scheduler.RunLoop | mek/internal/scheduler/scheduler.go:267-391 | the log is a run, and how it ends, and with what statuses, is exactly what the course of the run gives, for all deadlines, cancellations and times of arrival; where the course cuts no wait short nothing but an escalation forces a status |
| Scheduling.Scheduler.ComputeWaves | mek/internal/scheduler/scheduler.go:32-49 | every layer is split into its waves |
| CalmRuns.CalmEnds | mek/internal/scheduler/scheduler.go:267-391 | a calm run escalates, or never returns, if and only if the first wave of the plan that stops runs escalates, or jams; with none it completes with every node in the status it means |
| CalmRuns.CalmForcesNone | mek/internal/scheduler/scheduler.go:230-264 | a calm run cuts no wait short |
| CalmRuns.FinalStatusesAreFixedIff | mek/internal/scheduler/scheduler.go:326-391 | the final statuses of a calm run that escalates are the same for all times of arrival if and only if no other node dispatched in the escalating wave has an accepted answer other than TERMINATED |
| Scheduling.ConflictingNodesNeverRunTogether | mek/internal/scheduler/scheduler.go:51-122 | at every moment of every run two RUNNING nodes share neither an isolation surface nor an input contract |
| Kernel.BuiltLooksBack | mek/internal/ceg/builder.go:19-111 | an accepted plan whose edge sources are units and whose rules name predecessors gives a graph on which rules look at earlier layers and every unit is in its layer; if all its rules can be decided, so can the graph's |
| Kernel.TerminatedByOwnWave | mek/internal/scheduler/scheduler.go:230-264 | a completed execution has terminated a unit if and only if the unit's own wave dispatched something and, with all answers in, the unit had answered TERMINATED or was unfinished; then the wave had a deadline or was cancelled, and no other wave's deadline touches the unit |
| Kernel.Execute | mek/internal/runtime/runtime.go:28-84 | runs exactly the acceptable plans; how the execution ends, and with what statuses, is what the course of the run gives in its surroundings; a plan whose rules the kernel does not know runs to its end without starting anything; a calm execution escalates, never returns or completes as the first wave that stops it says, and completes with every unit in the status of its meaning; with at most 256 units the event channel holds the whole log, and the journal of what it holds repeats the log with every node's true earlier status and gives the statuses back |
| Kernel.JournalRecords | mek/internal/journal/journal.go:64-87 | journaling a log gives one entry per commit, numbered in order, with the node's true earlier status, and its last writes are the statuses after the log |
| Hanging.PlanForks | mek/internal/rir/loader.go:38-141 | the three-unit plan passes the loader's checks and has the shape that the lemmas about it use |
| Hanging.ForkIsAccepted | mek/internal/ceg/builder.go:77-111 | the builder accepts the plan, and its rules name predecessors only |
| Hanging.ForkJams | mek/internal/scheduler/scheduler.go:267-391 | when its root succeeds the wave behind it jams and no earlier one does |
| Hanging.RunForever | mek/internal/scheduler/scheduler.go:230-264 | with no deadline and no cancellation, an execution of the plan in which the root succeeds awaits that wave for ever, whatever the other answers |
| Observers.Journal.Record | mek/internal/journal/journal.go:64-87 | appends one entry with the next number and the status last journaled for the node |
| Observers.Journal.TerminalStatus | mek/internal/journal/journal.go:126-135 | the last journaled status of the node |
| Observers.Journal.NodeHistory | mek/internal/journal/journal.go:113-123 | exactly the node's entries, in order |
| Observers.LoadTerminals | mek/internal/replay/replay.go:99-117 | the last line of every node wins |
| Observers.JournalIsFaithful | mek/internal/journal/journal.go:64-87 | the last-write fold of the journal is the status map after the same events |
| Observers.EntryIsTrue | mek/internal/journal/journal.go:64-87 | entry k carries the event, the number k and the node's true earlier status |
| Observers.NodeHistoryIsHistory | mek/internal/journal/journal.go:113-123 | the statuses journaled for a node are exactly its commit history, in order |
| Observers.Collector.Process | mek/internal/trace/collector.go:71-138 | records the terminal status and numbers one trace event for every status but BLOCKED |
| Observers.TraceIsLastEnding | mek/internal/trace/collector.go:71-138 | whatever events it is fed, the collector knows exactly the nodes they are about, and of each the last terminal status reported |
| Observers.TraceKnowsTerminals | mek/internal/trace/collector.go:163-171 | on every log of the engine the traces know exactly the terminal statuses |
| Verifying.Structural | mek/internal/verify/verify.go:39-113 | passes if and only if the graph is sound; the violations reported are exactly those that hold |
| Verifying.SoundnessIsAbsence | mek/internal/verify/verify.go:39-113 | no violation holds if and only if all nodes are terminal and every success has its dependencies and requirements |
| Verifying.UnsoundIff | mek/internal/verify/verify.go:39-113 | statuses are unsound if and only if a node is missing or unfinished, a dependency edge leads from a node with another status to a SUCCESS, or an `all_success` SUCCESS requires a node that is none |
| Verifying.Compare | mek/internal/replay/replay.go:61-97 | the divergences are exactly the nodes on which the two status maps differ, and the result is a match if and only if the maps are equal |
| Consistency.FinalEventsRecover | mek/internal/verify/verify.go:229-250 | one event per node with its final status is a log the engine accepts, and gives the final statuses back |
| Consistency.Check | mek/internal/verify/verify.go:253-336 | journal and kernel always agree; trace and journal agree if and only if all statuses are terminal; replay agrees if and only if the statuses are equal; structure passes if and only if sound |
| Consistency.MeaningIsBuildIndependent | mek/internal/replay/replay.go:48-57 | two graphs built from one plan give every node the same meaning |
| Consistency.JamsAreBuildIndependent | mek/internal/replay/replay.go:48-57 | two graphs built from one plan have the same waves, and a wave jams in both or in neither |
| Replaying.EndIsBuildIndependent | mek/internal/replay/replay.go:48-57 | how an execution ends, and with what statuses, is the same on every graph built from the plan |
| Replaying.CompletedReplaysAgree | mek/internal/replay/replay.go:39-97 | where a run completes, every replay that returns leaves the same statuses, whatever deadlines, cancellations and times of arrival it meets |
| Replaying.ReplaysAgreeIff | mek/internal/replay/replay.go:39-97 | where a run escalates, all replays that return leave the same statuses if and only if every other accepted answer of the escalating wave is TERMINATED |
| Replaying.CalmReplaysAgreeIff | mek/internal/replay/replay.go:39-97 | over calm executions of a plan that escalates the same holds if and only if no other unit dispatched in the first escalating wave of the plan has an accepted answer other than TERMINATED |
| Consistency.ActivationRuleNeverFails | mek/internal/verify/verify.go:92-110 | the ACTIVATION rule reports nothing on the statuses of any run at any moment |
| Consistency.MeaningSoundness | mek/internal/verify/verify.go:39-113 | on the statuses a calm run completes with, the structure is sound if and only if every unit has become terminal and no unit succeeds over a dependency edge from one that does not: the node and requirement rules add nothing |
| Robustness.OnlyFailureTells | mek/internal/verify/verify.go:73-90 | when only one unit's dispatch fails, exactly the units that can succeed without it by the rules do |
| Robustness.RespectedIff | mek/internal/verify/verify.go:73-90 | dependency edges are respected for every cooperative dispatch if and only if no such edge leads to a unit that can succeed, by the rules alone, without the edge's source |
| Robustness.RequiredIsRobust | mek/internal/verify/verify.go:67-110 | a plan whose dependency edges enter only `all_success` units that require their source meets that condition |
| Consistency.RobustIsBuildIndependent | mek/internal/replay/replay.go:48-57 | whether a plan meets that condition does not depend on the graph built from it |
| Consistency.SoundIffRobust | mek/internal/verify/verify.go:39-113 | the structural verification accepts the outcome of every cooperative dispatch if and only if the plan meets that condition |
| Consistency.FullConsistencyCheck | mek/internal/verify/verify.go:205-337 | there is no graph if and only if the plan is not acceptable, and a report if and only if the run and its replay both return; every report says truly whether journal and kernel, trace and journal, and the statuses of run and replay agree and whether the structure is sound; replay agrees if and only if the surroundings make the two end alike, and always when the run completes; for a calm run without escalation there is no report if and only if some wave jams, and the check passes if and only if every unit becomes terminal and no unit succeeds over an unsuccessful dependency; with decidable rules and a cooperative dispatch it passes when the plan is robust, which is so if and only if every cooperative dispatch respects the dependency edges |
| Alternative.PlanJoins | mek/internal/rir/loader.go:38-141 | the plan of two roots and an `any_success` unit behind both passes the loader's checks and has the shape that the lemmas about it use |
| Alternative.JoinIsAccepted | mek/internal/ceg/builder.go:77-111 | the builder accepts it, and its rules can be decided |
| Alternative.JoinIsFragile | mek/internal/verify/verify.go:73-90 | its last unit can succeed without the first root, so the dependency rule fails when only that root does |
| Alternative.CheckFails | mek/internal/verify/verify.go:205-337 | when only that root fails, the check reports agreement of journal, kernel, trace and replay and yet fails, whatever the deadlines and cancellations |
| Loader.Validate | mek/internal/rir/loader.go:38-141 | accepts exactly the valid plans; an error reports something that is the case and belongs to the first rule, in checking order, that is broken |
| Loader.ValidIff | mek/internal/rir/loader.go:38-141 | a plan is valid if and only if its version is 1.0, its mode 2, its parallelism positive, its hash set, its ids distinct, no unit a checkpoint, every dependency a unit, and every gate has branches, a default and at most one branch that escalates |
| Loader.FindUnresolved | mek/internal/rir/loader.go:38-141 | a reported dependency names no unit; nothing reported means that all dependencies do |
| Compiler.Compile | mek/internal/rir/compiler.go:12-157 | unit ids, dependencies and edges are exactly those that the kept files and their project imports ask for: no id twice, one edge per import occurrence in order, and each unit depending on the targets of its edges |
| Compiler.CompileImports | mek/internal/rir/compiler.go:67-111 | one unit per new dependency id and one edge per project import occurrence; the listed dependencies are the edges' targets |
| Compiler.ProjectImportIff | mek/internal/rir/compiler.go:159-164 | an import belongs to the project if and only if one of the three package names or the project path occurs anywhere in it |
| Compilation.CompiledIsValid | mek/internal/rir/loader.go:38-141 | the loader accepts whatever the compiler produces |
| Compilation.CompiledIsClosed | mek/internal/rir/compiler.go:67-111 | both ends of every compiled edge are units |
| Compilation.DependenciesAreImports | mek/internal/rir/compiler.go:67-113 | a unit depends on an id if and only if the kept file of that path imports it from the project |
| Compilation.ImportIff | mek/internal/rir/compiler.go:67-111 | a kept file imports an id if and only if that is `import:` followed by one of its imports in which a marker of the project occurs |
| Compilation.FlatIff | mek/internal/rir/compiler.go:67-111 | no path has more than two units if and only if no kept file with project imports is itself an imported id |
| Compilation.CyclicIff | mek/internal/rir/compiler.go:67-111 | the compiled graph has a cycle if and only if some imports lead back to where they started |
| Compilation.OccurrencesAreEdges | mek/internal/rir/compiler.go:67-111 | a compiled unit has as many incoming edges as there are occurrences of its id among the project imports of the kept files |
| Compilation.ShortChainsIff | mek/internal/ceg/builder.go:77-111 | compiled output is neither cyclic nor too deep if and only if no import chain has more than 128 ids |
| Compilation.CompiledAcceptance | mek/internal/ceg/builder.go:77-111 | the builder accepts compiled output if and only if no import chain has more than 128 ids and no id occurs more than 1024 times; a closed chain excludes the first |
| Compilation.CompiledDepth | mek/internal/ceg/builder.go:170-220 | without a closed chain the recorded depth is the number of ids in the longest import chain |
| Compilation.UnchainedAcceptance | mek/internal/rir/compiler.go:12-157 | when no file path starts with `import:`, the plan is acyclic, at most two deep, and accepted if and only if no id occurs more than 1024 times among the kept files' project imports |
| Compilation.SelfImportIsRejected | mek/internal/rir/compiler.go:67-111 | a file named like its own import compiles to a valid but cyclic plan, which the builder rejects |
| Compilation.CompiledNeverRuns | mek/internal/rir/compiler.go:60-103 | running compiled output leaves imports BLOCKED and skips the rest; the structural check passes if and only if there are no edges |
| Compilation.DirectoriesDoNotMatter | mek/internal/rir/compiler.go:25-66 | directories in the scan change neither the units nor the edges |
| FairQueues.FairQueue.Enqueue | runtime/queue/fair_queue.go:54-78 | refuses when full, otherwise appends to the session's line, and a new session joins the ring; all of the abstract queue is stated |
| FairQueues.FairQueue.Dequeue | runtime/queue/fair_queue.go:80-125 | returns nothing only from an empty queue; otherwise the head of the front session's line, with the abstract ring turned |
| FairQueues.OrderListsSessions | runtime/queue/fair_queue.go:18-28 | `order` lists exactly the non-empty sessions, each once |
| FairQueues.SameLineIff | runtime/queue/fair_queue.go:62-66 | two requests share a line if and only if they name the same session, none counting as `_global` |
| FairQueues.LinesHoldOwn | runtime/queue/fair_queue.go:54-78 | every request waiting in the line of a session was sent for it; the line `_global` also holds those sent for none |
| Fairness.TotalIsCounter | runtime/queue/fair_queue.go:54-125 | the counter is the sum of the line lengths |
| Fairness.SessionsAreFifo | runtime/queue/fair_queue.go:54-125 | over any run, what a session had and got admitted is what it was served followed by what it still has |
| Fairness.ServedInTime | runtime/queue/fair_queue.go:54-125 | a waiting session with d sessions ahead is served within d + 1 + m services, m being the new sessions meanwhile |
| Fairness.ServedInLap | runtime/queue/fair_queue.go:54-125 | a session of the current lap with d sessions before it there is served within d + 1 services, whoever else arrives |
| Fairness.CanStarveIff | runtime/queue/fair_queue.go:54-125 | any number of services may all pass over a waiting session if and only if it waits for the next lap and the queue has room or more than one session in its current lap |
| Fairness.Starves | runtime/queue/fair_queue.go:54-125 | for instance, two sessions that take turns with one request each keep the lap of one going for any number of services |
| Fairness.StarvationArises | runtime/queue/fair_queue.go:54-125 | four calls on an empty queue lead to that situation |
| Fairness.ServicesAlternate | runtime/queue/fair_queue.go:80-125 | two sessions that both stay non-empty are served strictly in turns, under every interleaving |
| Retrying.BackoffDoubles | runtime/mcp/release/retry.go:23-46 | each wait lies within a fifth above its doubled base, is longer than the one before, and never reaches the cap |
| Retrying.RetryWindow | runtime/mcp/release/retry.go:57-70 | after the k-th failure an entry is not due before 30 seconds doubled k - 1 times have passed, and due once a fifth more has; the fifth failure is final |
| ReleaseRuns.AttemptsCountMisses | runtime/mcp/release/queue.go:55-148 | over any run with restarts the stored attempts count exactly the failed tries |
| ReleaseRuns.TriesAreBounded | runtime/mcp/release/queue.go:110-148 | at most five failed tries and one success per entry; finally failed if and only if five failed tries, completed if and only if one success |
| ReleaseRuns.MissWaits | runtime/mcp/release/queue.go:110-148 | over every run, after the k-th failed try of an entry nobody can take it before 30 seconds doubled k - 1 times have passed, unless the queue is restarted; a fifth more always suffices, and after the fifth try nobody can |
| ReleaseRuns.NewIsDue | runtime/mcp/release/queue.go:110-116 | a new entry can be taken at once |
| ReleaseRuns.RestartReleases | runtime/mcp/release/queue.go:55-67 | after a restart exactly the entries that waited can be taken at once |
| ReleaseRuns.UnchangingIff | runtime/mcp/release/queue.go:55-148 | no run changes an entry any more if and only if it is completed, finally failed, or in flight with no worker |
| ReleaseRuns.RestartAbandons | runtime/mcp/release/queue.go:55-67 | an entry in flight at a restart is never changed again |
| ReleaseRuns.IdentitiesStay | runtime/mcp/release/queue.go:55-148 | no entry is lost or becomes another release |
| ReleaseQueues.ReleaseQueue.Recover | runtime/mcp/release/queue.go:55-67 | waiting entries become pending and all others stay as stored |
| ReleaseQueues.ReleaseQueue.Enqueue | runtime/mcp/release/queue.go:76-108 | appends a pending entry with no attempts |
| ReleaseQueues.ReleaseQueue.Dequeue | runtime/mcp/release/queue.go:110-123 | takes the first entry that is due when looked at, and nothing if none is |
| ReleaseQueues.ReleaseQueue.Complete | runtime/mcp/release/queue.go:125-148 | settles the first entry with the id: completed, or back in line to wait, or finally failed after the fifth failure |
| Orchestrating.RoundCosts | runtime/mcp/release/orchestrator.go:154-239 | every round lowers the remaining cost, even when it settles another entry than it took |
| Orchestrating.RoundSettlesIff | runtime/mcp/release/queue.go:110-148 | a round settles the entry it took if and only if no earlier entry has its id; otherwise the outcome goes to the earlier one |
| Orchestrating.StrandedIff | runtime/mcp/release/orchestrator.go:154-239 | a pending entry is in flight after the loop if and only if an earlier entry has its id, and then it stays so for ever |
| Orchestrating.SameIdIff | runtime/mcp/release/queue.go:76-108 | two commits of one version get one release id if and only if their first eight characters agree |
| Orchestrating.WinsAreCompletions | runtime/mcp/release/orchestrator.go:154-239 | the successes of a run are exactly the newly completed entries |
| Orchestrating.ReleaseOrchestrator.Publish | runtime/mcp/release/orchestrator.go:162-236 | a release goes out if and only if it is known to be out, or there is access and its tag and itself are found or made; then it is out and its key is marked, and otherwise no key is |
| Orchestrating.ReleaseOrchestrator.ProcessQueue | runtime/mcp/release/orchestrator.go:154-239 | terminates for any clock and answers; nothing due is left; with distinct ids it is a run, the result counts its successes, every newly completed entry is out, and with a cooperating remote every entry is left as it was or completed; a call that takes less than half a minute tries every entry at most once, every one due at its start exactly once, and leaves a failed one QUEUED with its wait ahead, or finally failed |
| CircuitBreaking.CircuitBreaker.Admit | runtime/mcp/contracts/circuit_breaker.go:92-123 | the first section, field by field the arrival of the interleaving model |
| CircuitBreaking.CircuitBreaker.Finish | runtime/mcp/contracts/circuit_breaker.go:129-159 | the second section, field by field the return of the interleaving model |
| CircuitBreaking.HistoryTells | runtime/mcp/contracts/circuit_breaker.go:129-159 | over every interleaving the counter is the number of failed or late returns since the last good one, and the recorded time that of the last of them |
| CircuitBreaking.OpenRejects | runtime/mcp/contracts/circuit_breaker.go:92-123 | over every interleaving an open breaker rejects each call that comes within the recovery time after the last failed or late return, and changes nothing; the first later call is let through and leaves it half-open with one probe sent |
| CircuitBreaking.StaysOpen | runtime/mcp/contracts/circuit_breaker.go:92-123 | so it stays open for the whole recovery time, whoever calls |
| CircuitBreaking.OthersAdmit | runtime/mcp/contracts/circuit_breaker.go:92-123 | a closed breaker lets every call through unchanged, a half-open one exactly until its probes are spent |
| CircuitBreaking.ReturnsDecide | runtime/mcp/contracts/circuit_breaker.go:129-159 | over every interleaving a return opens a closed breaker if and only if it makes as many failed or late returns in a row as the threshold; in a half-open one any failure opens and a good return closes |
| CircuitBreaking.ProbesAreLimited | runtime/mcp/contracts/circuit_breaker.go:92-159 | while half-open at most the configured number of probes gets through, with any number of calls in flight and any times |
| CircuitBreaking.SequentialCallsRest | runtime/mcp/contracts/circuit_breaker.go:92-159 | with one call at a time the breaker is closed at rest if and only if the failures in a row are below the threshold |
| CircuitBreaking.WedgedForEver | runtime/mcp/contracts/circuit_breaker.go:92-123 | half-open with all probes used and no call out, the breaker rejects every call for ever |
| CircuitBreaking.LateReturnsDecideNothing | runtime/mcp/contracts/circuit_breaker.go:144-153 | any number of late successes, whenever sent and however late, leaves a half-open breaker half-open with its probes spent as long as the failure count stays below the threshold |
| CircuitBreaking.WedgesIff | runtime/mcp/contracts/circuit_breaker.go:41-80 | over all interleavings with times that do not run backwards and calls that take the time they are out for, that state can be reached if and only if fewer probes are allowed than failures open the circuit; the defaults allow it |
| TokenBuckets.TokenBucket.TryTake | runtime/mcp/v2/gateway.go:35-50 | refills, caps and takes a token as the specification says |
| TokenBuckets.GrantsArePaidFor | runtime/mcp/v2/gateway.go:35-50 | grants and remaining tokens never exceed the first level plus the inflow; the level stays within the bucket |
| TokenBuckets.WindowBound | runtime/mcp/v2/gateway.go:35-50 | between any two instants at most the capacity plus the inflow between them is granted |
| TokenBuckets.PatienceIsRewarded | runtime/mcp/v2/gateway.go:35-50 | a call that comes one refill period after the last is granted |
| TokenBuckets.BurstIsGranted | runtime/mcp/v2/gateway.go:35-50 | of the calls at one instant exactly as many are granted as there are whole tokens then |
| TokenBuckets.TokensAreGranted | runtime/mcp/v2/gateway.go:35-50 | a bucket that holds as many tokens as calls come grants them all |
| Deliveries.SurvivorsAre | mek/internal/adaptctl/actionbus/bus.go:116-142 | exactly the ids with a live, undelivered action survive the filter, once each |
| Deliveries.FirstSurvives | mek/internal/adaptctl/actionbus/bus.go:116-142 | of several actions with one id exactly the first live one survives |
| Deliveries.BatchIsOrdered | mek/internal/adaptctl/actionbus/bus.go:83-113 | one publish call delivers in order of issue, only live undelivered actions, with at most the configured calls per id |
| Deliveries.SurvivorsAreTried | mek/internal/adaptctl/actionbus/bus.go:83-166 | every surviving action is delivered, or was refused as often as it may be tried, unless the context was cancelled after at least one refusal |
| Deliveries.LiveAreTried | mek/internal/adaptctl/actionbus/bus.go:83-182 | an action without a time to live, or given to the bus within it, has its id delivered or tried, up to the limit if nobody cancels, unless it was delivered before; one given later is never delivered |
| Deliveries.NothingIsDeliveredTwice | mek/internal/adaptctl/actionbus/bus.go:83-188 | over any number of publish calls no id is delivered twice and the returned counts add up to the delivered ids |
| Deliveries.DeliveredIsNotCalledAgain | mek/internal/adaptctl/actionbus/bus.go:116-173 | a delivered id is never offered to the endpoint again |
| ActionBuses.Bus.FilterValid | mek/internal/adaptctl/actionbus/bus.go:116-142 | keeps exactly the survivors |
| ActionBuses.SortByIssue | mek/internal/adaptctl/actionbus/bus.go:91-95 | orders by issue time; ties in any order |
| ActionBuses.Bus.DeliverWithRetry | mek/internal/adaptctl/actionbus/bus.go:145-173 | calls as the endpoint answers, until a success, the limit or a cancellation after the first call, and not one call more or less; a success marks the id |
| ActionBuses.Bus.Publish | mek/internal/adaptctl/actionbus/bus.go:83-113 | extends the history by one batch; an error if and only if there is no endpoint, or something survived and nothing was delivered |
| ActionBuses.Bus.DeliveredCount | mek/internal/adaptctl/actionbus/bus.go:184-188 | the number of distinct ids delivered, which is the sum of all returned counts |
| ConcurrentPublishes.DeliveredOncePerWorker | mek/internal/adaptctl/actionbus/bus.go:116-173 | over every interleaving of publish calls no worker delivers an id twice, so an id is delivered at most as often as there are workers |
| ConcurrentPublishes.RepeatsIff | mek/internal/adaptctl/actionbus/bus.go:83-173 | over the interleavings in which every worker publishes its own batch, an id can be delivered more than once if and only if two batches hold a live action with it and it was not delivered before |
| ConcurrentPublishes.ContendedIsRepeated | mek/internal/adaptctl/actionbus/bus.go:83-173 | then it happens without any failed or cancelled call |
| ConcurrentPublishes.TwoDeliverTwice | mek/internal/adaptctl/actionbus/bus.go:116-173 | two workers that both filter before either marks deliver the same live action twice |

## Left out

- Files and JSON: plans, journals and queues are values, and writing them out and reading them back is taken to be faithful.
- Goroutines, channels and locks: each critical section is one step, and an arbitrary choice stands for every order of arrival.
- Ties between answers: those with the same time of arrival are taken in id order. Every order of answers is that of some distinct times.
- Wall-clock time: deadlines, cancellations, times of reading and jitters are parameters; a deadline may pass at any poll.
- Outputs, artifacts and error payloads of nodes: they do not influence any decision of the kernel.
- The dispatcher's adapters and the gates' predicates: dispatch is an arbitrary function from nodes to answers.
- `MaxParallelism` and selected branches: the scheduler does not read them.
- Conditional activation: kept as a rule the kernel does not know, as the code treats it; closure is not claimed for waves that hold such nodes.
- Builder.Build: takes plans without duplicate unit ids, because `Loader.Validate` refuses the others before a graph is built.
- Kernel.Execute: likewise takes plans without duplicate unit ids; loading and validating come before it.
- Consistency.FullConsistencyCheck: likewise takes plans without duplicate unit ids.
- The fairness-violation callback and starvation statistics of the fair queue: they observe only.
- Floating point: the bucket and the retry delays are computed over reals; times in the release queue are whole milliseconds, so a deadline may be off by one.
- Normalising file paths in the compiler: paths are taken as they are after conversion to slashes. The project markers are a parameter of `Compiler.Compile`; the program's own list is `Compiler.Markers`.
- The remote's API of the release loop: its answers are parameters, a failed creation may still have taken effect, and releases are not deleted by others. The local git tag, whose result the loop ignores, is not modelled.
- Concurrent enqueues during the release loop: its termination is proved for a queue that only the loop changes; the properties over runs hold for any number of workers.
- Dispatch results that are neither an answer nor an error: the program would fail on them.
- The histories of `Deliveries` are of publish calls one after the other; for calls side by side `ConcurrentPublishes` follows who delivers what and leaves the single tries out.
- Scoring, learning, prediction, health and latency statistics, dashboards, the command line and the servers: heuristics and plumbing.
