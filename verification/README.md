# ARES in Dafny

A model of three parts of the ARES agent runtime, with proofs of what they keep, compute and promise.

**The graph engine** (`sdk/graph.go`, `sdk/graph_run.go`). A graph is built by chained calls and run
in barrier rounds: every runnable node starts, the round ends when all have settled, then the
conditions on the outgoing edges of the completed nodes are evaluated. `GraphBuilder` is the mutable
builder (its edge buffer is an array that removals compact in place) and its snapshot, and
`GraphBuilding` says what each call changes in the snapshots taken from it.
`GraphModel`, `GraphRound` and `GraphRuns` say on values what a readiness check, one round and one
whole run may do: user functions, agents, edge conditions and the router are arbitrary, cancellation
may strike at any loop head, and a round is any interleaving of its nodes' steps (Begin: count the
execution and copy the state; Commit: merge the copy or record the failure; Report: append to the
completions or claim the first error). `GraphEngine` is the engine itself, a class whose methods
update the run's fields; its round loop returns the choices that make what happened a run of the
model. In `GraphRound` a nested graph may answer with any state that loses no key, so what is proved
of all rounds and runs holds of more than the engine can do; `GraphNesting` makes nested graphs exact
(each answers with the outcome of a run of its own), and `GraphBudget` bounds what all of them cost
together. `GraphConfluence`, `GraphUpdates` and `GraphDataflow` say which rounds and runs do not depend
on the schedule and when a sibling's update is lost, `GraphTiming` when each node is settled and which
ones a nil return leaves pending. `GraphInputs`, `GraphConditions`, `GraphTurns` and `GraphRouter` say
what agents are asked, what decides an edge, what a round reports and what the router is asked, in
terms of the user's own functions and of whole runs. `GraphSkips`, `GraphFailures` and `GraphRoutedFailures` settle what
the documentation promises about skips and failures; `GraphApi` puts snapshot, validation and rounds
together.

**Collaboration graphs** (`cmd/ares/collab_graph.go`). `CycleCheck` is Kahn's algorithm as the
submission check runs it, for any order of map iteration, over dependency multigraphs. `CollabIds`
has the two run-id generators character by character, and the prefix test that protects a live run's
tasks. `Janitor` is the protocol between any number of live runs and the background sweep as a state
machine in which the sweep's listing, its scan of the active runs, its read and its delete are
separate steps. `CollabRun` and `CollabWait` are the sequential code: validation, creation, the
polling loop that filters its pending array in place, fail-fast, deferred cleanup and one
uninterrupted sweep, over a fabric in which, between any two steps of a run, its own tasks move on
and anything may happen to the tasks of others.

**Two sequential cores.** `Scanner`, `Sections`, `Packing`, `Chunker` and `ChunkBounds`
(`examples/11-knowledge-import`) take lines to blocks, blocks to sections with breadcrumbs, sections
to greedy groups, and groups to chunks whose size the loaded configuration bounds; `ScanContent` and
`ChunkContent` say what the blocks and the chunks read like, character by character. `Calculator`, `CalcRoundTrip`, `CalcDialects`, `CalcText`
and `Evaluators` cover the two arithmetic evaluators (`api/tools/builtin.go` and
`examples/02-tool-calling/main.go`) as two dialects of one grammar over uninterpreted numbers.

`Basics`, `Digraph` and `Markdown` hold shared vocabulary: duplicate-free listings, walks and cycles
of dependency graphs, and white space and byte length of text.

## Where the code and its documentation differ

- Skips do not cascade. `sdk/graph.go:146-148` and `sdk/graph_run.go:27-29` say that a skipped node's
  outgoing edges die. No code path kills them: `settleSkips` writes no edge, and `evaluateOutgoing`
  sees completed nodes only. `GraphSkips.CascadeExactlyOnSafeShapes` gives the exact condition, for all
  graphs, under which the promise is kept anyway, and `GraphSkips.ChainRunsPastSkip` a three-node graph
  on which it is not.
- A failure ends the whole run. `sdk/graph_run.go:35-36` says that it ends only its branch, does not
  cancel sibling branches, and that the failed node's outgoing edges die. The loop returns after the
  round, and no edge of the failed node is touched (`GraphRuns.FailureEndsRun`).
  `GraphFailures.SiblingCutOff` is a graph on which a sibling branch is cut off. The exact condition
  under which none ever is is in `GraphFailures.FailureConfinedExactly` for all graphs without a router,
  and in `GraphRoutedFailures.RoutedFailureConfinedExactly` for all graphs and all routers.
- Parallel siblings can undo each other's updates: function and nested nodes merge their whole copy
  (`sdk/graph_run.go:251-255`, `288-290`), stale entries included, although the comment speaks of the
  keys the function wrote. `GraphUpdates.StaleCopyLosesUpdate` loses an update, and
  `GraphUpdates.NoUpdateLostExactly` gives the exact condition under which no schedule does.
- The wait loop's comment (`cmd/ares/collab_graph.go:141-143`) speaks of the first failed node; the
  code names every node seen failed in the scan, as `CollabWait.WaitForNodes` does.
- The janitor's protection is a prefix test. A live IPC run can also shield the task of an unrelated
  run (`CollabIds.IpcProtectsExactly`, `CollabIds.IpcOverProtects`): residue stays longer, nothing live
  is ever deleted.
- Nested graphs are not validated. `sdk/graph.go:149-150` says that missing endpoints are validated
  when the graph runs; `RunGraph` checks the top level only, and ignores the build errors of nested
  graphs. A nested graph with such an edge counts as done while its stuck nodes never run:
  `GraphNesting.NestedLeftUnfinished`, and exactly which nodes those are in
  `GraphTiming.NilReturnExact` and `GraphNesting.MergedMeansQuiescent`.

## Model

| member | source | states |
|---|---|---|
| GraphBuilder.BuilderInvariant | sdk/graph.go:98-214 | after any sequence of add and remove calls `order` lists the node ids without duplicates, no id is empty, at most 1024 nodes and 4096 edges exist, and the first recorded error never changes |
| GraphBuilder.CallKeepsInv | sdk/graph.go:98-214 | one call keeps that invariant and any error already recorded |
| GraphBuilder.KeepExact | sdk/graph.go:192-198 | removing a node drops exactly the edges that touch it, with multiplicity |
| GraphBuilder.DropFirstExact | sdk/graph.go:204-214 | removing an edge drops the first match and nothing else, or nothing when there is none |
| GraphBuilder.AdjacencyAgrees | sdk/graph.go:260-265 | each edge is listed under its source as often as under its target, and as often as it was added |
| GraphBuilder.SnapshotWellBuilt | sdk/graph.go:243-267 | every snapshot of a valid build satisfies what the engine relies on |
| GraphBuilder.Graph.constructor | sdk/graph.go:81-86 | a new graph is empty, valid and has no error and no router |
| GraphBuilder.Graph.AddNode | sdk/graph.go:98-144 | the node is added at the end of the order, or exactly one error is recorded: earlier error, empty id, duplicate, cap, nil or unsupported kind, in that order |
| GraphBuilder.Graph.AddEdge | sdk/graph.go:158-174 | the edge is appended, endpoints known or not, or one error is recorded |
| GraphBuilder.Graph.RemoveNode | sdk/graph.go:179-200 | node, order entry and touching edges go; unknown ids change nothing; works after an error too |
| GraphBuilder.Graph.RemoveFromOrder | sdk/graph.go:186-191 | the first occurrence is spliced out |
| GraphBuilder.Graph.CompactEdges | sdk/graph.go:192-198 | the in-place compaction over the buffer being read leaves exactly the kept edges, in order |
| GraphBuilder.Graph.RemoveEdge | sdk/graph.go:204-214 | the first match is shifted out of the buffer in place |
| GraphBuilder.Graph.SetRouter | sdk/graph.go:221-226 | only the router changes |
| GraphBuilder.Graph.TakeSnapshot | sdk/graph.go:243-267 | both adjacency maps in insertion order; per pair the condition added last wins |
| GraphBuilding.EdgeIsListed | sdk/graph.go:158-174 | AddEdge gives its first argument a successor and its second a source, each at the end of its list, and the pair the new condition, and changes nothing else in the next snapshot; exactly which calls are refused, and with which error |
| GraphBuilding.NodeIsListed | sdk/graph.go:98-144 | AddNode puts one node of the right kind at the end of the order and no edge; exactly which calls are refused, and with which error |
| GraphBuilding.NodeIsUnlisted | sdk/graph.go:179-200 | RemoveNode takes the node out of the order and out of every list of successors and sources, whose other entries keep their order and conditions |
| GraphBuilding.EdgeIsUnlisted | sdk/graph.go:204-214 | RemoveEdge takes the first such entry off both lists; the pair keeps the condition added last while an edge remains; nothing else changes |
| GraphModel.EvaluateAllOrderIndependent | sdk/graph_run.go:162-171 | evaluating a round's completions in any two orders kills the same edges |
| GraphModel.FoldOutgoingExact | sdk/graph_run.go:342-356 | after evaluation an edge is dead exactly if it was before or its source completed and its condition fails on the shared state; nothing else changes |
| GraphModel.OrDefault | sdk/graph_run.go:448-453 | the iteration bound is positive, a positive setting is kept, and any other gives 100 |
| GraphRound.RoundResult | sdk/graph_run.go:179-204 | at every barrier, whatever the interleaving: each launched node ran exactly once more, no key of the shared state is lost, completions are duplicate-free and are what is newly done, failures are among the launched nodes that did not complete, and an error is reported exactly when some node did not complete |
| GraphRound.FailingNodeIsInvisible | sdk/graph_run.go:237-251 | erasing a node that does not succeed from any schedule leaves a schedule of the others with the same shared state, done set and completion order |
| GraphTurns.RoundReports | sdk/graph_run.go:185-203 | completions are the nodes that report a success, in the order of their reports, and the error is that of the first node to report without one, in every schedule |
| GraphTurns.TurnReports | sdk/graph_run.go:162-175 | a round goes on exactly if all its nodes report success, and otherwise returns the error of the first that does not; done grows by the nodes that succeeded, and the first of them is left for the router |
| GraphTurns.SettledReturns | sdk/graph_run.go:149-156 | once every node is settled the next turn returns nil unless the router forces one to run |
| GraphTurns.CancelledReturns | sdk/graph_run.go:127-129 | a cancelled turn returns at once with nothing changed |
| GraphInputs.AnswersItsInput | sdk/graph_run.go:320-338 | an agent can answer exactly what submitting its only source's text gives, and with no text there, or no or several sources, what submitting the text under "input", else the empty text, gives |
| GraphInputs.AskedOnce | sdk/graph_run.go:320-338 | ... which is exactly one text |
| GraphInputs.AgentsAreFed | sdk/graph_run.go:214-230 | over every run without a router, however it ends: an agent whose key nobody else writes is done only with a reply, standing under its id, to its only source's output as the end state shows it, or to the global input where there is none and nobody writes that, and has failed only if that can be refused |
| GraphInputs.UpstreamFeeds | sdk/graph_run.go:320-338 | ... in particular an agent with one source that holds a text at the end replied to that text |
| GraphInputs.AgentsSpareOthers | sdk/graph_run.go:227-229 | an agent writes no key but its own |
| GraphInputs.ChainsCompose | sdk/graph_run.go:320-338 | agent chains compose: when a run returns nil with the first member done, all are, and under each id stands its answer to its predecessor's output |
| GraphInputs.ChainsFromInput | sdk/graph_run.go:320-338 | ... and a chain that begins with an agent without sources works on the global input |
| GraphConditions.CompletionsDecide | sdk/graph_run.go:162-171 | after any turn, failing ones included, an edge is newly dead exactly if its source reported a success in it and its condition rejects the shared state at the barrier |
| GraphConditions.EdgeHistory | sdk/graph_run.go:342-350 | in every run, with any router, an edge is dead exactly if its condition rejected the shared state at the barrier of some round that executed its source |
| GraphConditions.ConditionsDecide | sdk/graph_run.go:358-419 | a node all of whose sources are settled is launched, unless the router forces another, exactly if some edge to it was not rejected, and skipped exactly if all were |
| GraphConditions.ConditionDecides | sdk/graph_run.go:342-350 | without a router a node whose only edge comes from x is launched in the turn after x's round if the condition holds of the shared state at that barrier, and skipped if not |
| GraphRouter.RouterIsHeard | sdk/graph_run.go:139-147 | in the turn after a round the router has been asked about the first node to report and the state at the barrier; its answer is launched alone if it is a known node, neither skipped nor executed as often as the cap allows, and otherwise the ready set is |
| GraphRouter.RouterIsSilent | sdk/graph_run.go:139-147 | before the first round and after an empty one nobody asks it |
| GraphConfluence.RoundConfluence | sdk/graph_run.go:178-296 | if siblings write pairwise disjoint keys absent at the start and ignore each other's, every two interleavings end in the same run, the start state plus all their writes, and kill the same edges |
| GraphConfluence.SameAnswersSameEnd | sdk/graph_run.go:178-296 | the same for any nodes, in any two interleavings in which they answer alike |
| GraphConfluence.FlatRoundConfluence | sdk/graph_run.go:178-258 | without nested graphs independence alone makes every two interleavings of a round end in the same run |
| GraphConfluence.RoundEndsAsPlanned | sdk/graph_run.go:178-296 | where such an interleaving ends: the start state plus exactly all writes, with exactly the successful nodes done and the others failed |
| GraphConfluence.AgentRoundConfluence | sdk/graph_run.go:214-230 | a round of agents needs no assumption on keys at all: given their answers, every interleaving ends in the same run, the start state overwritten by every output under its agent's id |
| GraphConfluence.WritersAreIndependent | sdk/graph_run.go:232-258 | function nodes that only add fresh keys of their own meet that assumption |
| GraphUpdates.NoUpdateLostExactly | sdk/graph_run.go:251-255 | for rounds of function nodes and agents that always write the same: no schedule loses an update, and equally all schedules end in the same state, exactly when writers of a key agree on its value and each function node that does not write it finds that value there or nothing |
| GraphUpdates.NoClashConfluence | sdk/graph_run.go:178-258 | under that condition every two interleavings end in the same run |
| GraphUpdates.CommitsLast | sdk/graph_run.go:235-255 | every node of such a round has a schedule in which it copies the state before anyone has run and its whole merge prevails |
| GraphUpdates.FreshKeysNeverClash | sdk/graph_run.go:251-255 | fresh disjoint keys meet the condition |
| GraphUpdates.StaleCopyLosesUpdate | sdk/graph_run.go:235-255 | the smallest failure: one node overwrites a key of the state, its sibling writes nothing, and in a successful schedule the old value is back |
| GraphUpdates.SerialKeepsUpdate | sdk/graph_run.go:235-255 | ... and another schedule of the same two nodes keeps the update |
| GraphDataflow.RunConfluence | sdk/graph_run.go:124-176 | whole runs: without a router, if every node writes keys of its own only and its answer depends on no key of a node it does not depend on, any two uncancelled runs, nested ones included, take equally many turns, both succeed or both fail, and end with the same state, nodes done, skipped and failed, executions and dead edges |
| GraphDataflow.Lockstep | sdk/graph_run.go:124-176 | ... and agree after every turn on the way |
| GraphDataflow.PipelinesFlow | sdk/graph_run.go:320-338 | validated graphs of agents that answer the same input alike and of functions that add keys of their own meet that assumption, because what an agent is asked depends on its only upstream and the global input alone |
| GraphDataflow.PipelineConfluence | sdk/graph_run.go:124-176 | so any two uncancelled runs of such a graph end alike |
| GraphNesting.MergedMeansQuiescent | sdk/graph_run.go:260-293 | a nested graph's state is merged only after its run ended without failure, with every pending node stuck; without a router in it exactly its stuck nodes are left pending, and if it is acyclic and closed none is |
| GraphNesting.NestedLeftUnfinished | sdk/graph_run.go:260-293 | the unvalidated case: a valid graph returns nil with its only node done, although every run of the graph nested in it leaves a node behind an unknown id unfinished |
| GraphRuns.ReachableInv | sdk/graph_run.go:124-176 | at every reachable loop head `failed` is empty, done and skipped are disjoint, a dead edge has a done source and a condition, a skipped node has incoming edges and all are dead, no node ran more than the cap, and without a router none more than once |
| GraphRuns.TurnKeepsInv | sdk/graph_run.go:126-175 | every turn keeps this, and done, skipped, dead edges and state keys only grow |
| GraphRuns.RunKeepsKeys | sdk/graph_run.go:124-176 | however it ends, a run never loses a key of the shared state and never takes a node past the iteration cap |
| GraphRuns.LaunchRule | sdk/graph_run.go:130-147 | a turn launches the node the router forces, alone, or only nodes that satisfy the readiness rule; never a skipped, failed or exhausted one |
| GraphRuns.QuiescentReturn | sdk/graph_run.go:149-159 | whenever the loop returns nil, for any router, every pending node waits for a source that is not settled |
| GraphRuns.AcyclicRunCompletes | sdk/graph_run.go:124-176 | on a validated acyclic graph a nil return means every node is done or skipped, and never both |
| GraphRuns.PendingReturnsStuck | sdk/graph_run.go:149-159 | for any router, from whatever a nil return leaves pending one gets back to an unknown id or to a cycle |
| GraphTiming.NilReturnExact | sdk/graph_run.go:149-159 | without a router a nil return leaves pending exactly those nodes |
| GraphTiming.ReachTimed | sdk/graph_run.go:130-175 | in every run without a router each node was launched or skipped, as the turns of that run record it, in the first turn its sources allowed: the turn after its last source ran, or the very turn its last source was skipped |
| GraphRuns.IdleIsFixpoint | sdk/graph_run.go:149-159 | the guard of two idle rounds never stops early: after one idle round the next turn launches nothing and returns with nothing changed |
| GraphRuns.FailureEndsRun | sdk/graph_run.go:162-174 | a failure ends the run only at the barrier, after every sibling of the round ran; the error names a launched node, and no edge out of a node that did not complete dies |
| GraphFailures.SiblingCutOff | sdk/graph_run.go:172-174 | the concrete failure: roots a and b, an edge from b to c, no router; a fails, the run returns, and c, which depends on b alone, is pending and could run at once |
| GraphFailures.FailureConfinedExactly | sdk/graph_run.go:35-36 | for every graph without a router, cyclic and unvalidated ones included: in every failing run, whatever the nodes and conditions do, each pending node depends on one that did not complete, exactly when in every schedule of the shape, for every choice of nodes its conditions can skip together, whatever comes after a node that runs, or never, depends on it |
| GraphFailures.ConfinedByDepth | sdk/graph_run.go:35-36 | when no node can be skipped that condition is about longest paths: every node of greater depth, or stuck, depends on every node of less |
| GraphFailures.Depth | sdk/graph_run.go:390-419 | every graph has such depths |
| GraphFailures.FailsAlong | sdk/graph_run.go:162-174 | every node that a schedule runs can fail: the run follows the schedule until then, settles everything due by that turn, and nothing later |
| GraphRoutedFailures.RoutedFailureConfinedExactly | sdk/graph_run.go:35-36 | for every graph and all routers: in every failing run each pending node depends on one that did not complete, exactly when no run can start or every node with a source depends on every node |
| GraphRoutedFailures.NotBehindFails | sdk/graph_run.go:139-147 | for every other graph there are node bodies, conditions, a router and a run in which a node that does not depend on the failing one is left behind |
| GraphRoutedFailures.AcyclicBehind | sdk/graph_run.go:35-36 | in an acyclic graph that allows one node with sources at most |
| GraphRuns.TurnSpends | sdk/graph_run.go:126-175 | each continuing turn lowers the sum of remaining executions by exactly its launches, and the loop's variant falls |
| GraphRuns.RunsAreBounded | sdk/graph_run.go:124-176 | for every router, schedule and node outcome a run takes at most 2 * nodes * cap + 3 turns and starts at most nodes * cap executions |
| GraphRuns.JoinAll | sdk/graph_run.go:384-419 | when a node is launched, either the router was consulted, answered with it, and forces it alone, or it never ran before, every source was launched in an earlier turn and is done or was skipped, none runs beside it, and an incoming edge is alive unless it is a root |
| GraphRuns.RunsOnceWithoutRouter | sdk/graph_run.go:390-419 | without a router no node is launched twice in a run |
| GraphBudget.RunWithinBudget | sdk/graph_run.go:124-293 | however deep graphs are nested, and for every router, schedule and outcome, the node executions at all depths together are at most a budget fixed by the graph's shape and iteration caps |
| GraphBudget.EveryRunIsPaidFor | sdk/graph_run.go:124-293 | every run the engine can take has such a total, and the budget covers it |
| GraphSkips.SkipNeverCascades | sdk/graph_run.go:358-382 | in every reachable run the skip of a node leaves its outgoing edges alive and its successors unskipped |
| GraphSkips.CascadeExactlyOnSafeShapes | sdk/graph_run.go:27-29 | for every graph, cyclic and unvalidated ones included, the documented cascade holds in every run that returns nil, for all node bodies, conditions, routers and schedules, exactly when there is no root or no node with a successor has only conditional incoming edges, all from other nodes of the graph |
| GraphSkips.UnsafeShapeFails | sdk/graph.go:146-148 | for every other acyclic shape there are conditions and a run without a router to a nil return that break it |
| GraphSkips.UnsafeRouteFails | sdk/graph_run.go:139-147 | ... and for every other shape at all, conditions, a router and a run |
| GraphSkips.RootlessStandsStill | sdk/graph_run.go:124-176 | without a root no run ever does anything, whatever the router |
| GraphSkips.ChainRunsPastSkip | sdk/graph_run.go:358-382 | the concrete failure: a condition skips "b" in a chain a, b, c, and "c" runs |
| GraphEngine.GraphRun.constructor | sdk/graph_run.go:457-467 | a fresh run over the given state |
| GraphEngine.GraphRun.SettleSkips | sdk/graph_run.go:360-382 | skips exactly the unsettled nodes that have incoming edges, all dead, and changes nothing else |
| GraphEngine.GraphRun.ReadySet | sdk/graph_run.go:390-419 | exactly the nodes the readiness rule admits, in order |
| GraphEngine.GraphRun.CanRun | sdk/graph_run.go:422-432 | true exactly for known nodes that are not skipped, failed or exhausted; done ones included |
| GraphEngine.GraphRun.PendingCount | sdk/graph_run.go:435-445 | the number of nodes that are not settled |
| GraphEngine.GraphRun.EvaluateOutgoing | sdk/graph_run.go:342-356 | adds exactly the outgoing edges whose condition rejects the current state, or all of them for a failed or skipped source |
| GraphEngine.GraphRun.RunBody | sdk/graph_run.go:213-295 | the effect is one the node can have on its copy: the agent's answer to its only source's text or else the global input, the function's copy, a nested run's final state, failure, or no executable kind |
| GraphEngine.GraphRun.RunRound | sdk/graph_run.go:179-204 | any interleaving of the launched nodes' locked sections is a complete, genuine schedule of the model |
| GraphEngine.GraphRun.ConsultRouter | sdk/graph_run.go:141-147 | the router is asked once per seed, and forces its answer alone exactly if it may run |
| GraphEngine.GraphRun.EvaluateCompletions | sdk/graph_run.go:166-171 | every completion is evaluated, and the first one seeds the router |
| GraphEngine.GraphRun.TakeTurn | sdk/graph_run.go:126-175 | one pass of the loop is one turn of the model |
| GraphEngine.GraphRun.RunGraphRounds | sdk/graph_run.go:124-176 | the loop terminates, and what it did is a run of the model in which every nested graph answered by a run of its own |
| GraphApi.ValidateGraph | sdk/graph_run.go:106-121 | nil exactly for a non-empty graph whose edges join known nodes; the named endpoint is an unknown one |
| GraphApi.RunGraph | sdk/graph_run.go:37-81 | nil graph, build error and invalid graph are refused in that order, and every other graph is run; the result is that of a run, complete on acyclic graphs, and without a router a nil error leaves exactly the stuck nodes pending |
| CycleCheck.FindCycle | cmd/ares/collab_graph.go:287-326 | for every multigraph and map order: "" exactly when the dependencies are acyclic; otherwise a node on a cycle or depending on one, so the last return is never taken |
| CycleCheck.CountAndReverse | cmd/ares/collab_graph.go:288-298 | indegrees count multiplicity, and the adjacency lists are the dependencies reversed |
| CycleCheck.Resolve | cmd/ares/collab_graph.go:306-316 | resolving a node keeps the invariant: each indegree is the number of unmet dependencies, and the work list is exactly the unresolved nodes with none |
| CycleCheck.StuckNodesTouchCycles | cmd/ares/collab_graph.go:317-325 | once the work list is empty every node with a positive indegree reaches a cycle, and there is one unless all are resolved |
| CycleCheck.AllResolved | cmd/ares/collab_graph.go:317-319 | counting as many resolved nodes as there are nodes means acyclic |
| CycleCheck.AcceptedNeverWedges | cmd/ares/collab_graph.go:282-286 | while some node of an accepted submission is incomplete, some incomplete node has all its dependencies complete |
| CollabIds.TaskIdInjective | cmd/ares/collab_graph.go:186 | over all runs of both generators, task ids collide only for the same run and node, whatever node ids and caller task ids contain |
| CollabIds.HttpNames | cmd/ares/collab_graph.go:186 | what the ids and prefixes of HTTP runs look like, on examples with a negative clock and a dashed node |
| CollabIds.IpcNames | cmd/ares/evolution_ipc.go:244 | ... and those of IPC runs |
| CollabIds.HttpProtectsExactly | cmd/ares/collab_graph.go:75-85 | an HTTP run's prefix protects exactly its own tasks |
| CollabIds.IpcProtectsExactly | cmd/ares/evolution_ipc.go:244 | an IPC run's prefix protects its own task and exactly those IPC tasks whose caller-given id continues its name |
| CollabIds.IpcOverProtects | cmd/ares/collab_graph.go:73-85 | a concrete unrelated task that is protected |
| Janitor.SweepSparesLiveRuns | cmd/ares/collab_graph.go:60-118 | in every interleaving of any number of runs and non-atomic sweeps, when a sweep deletes a task its owner is over |
| Janitor.SweepSparesForeignTasks | cmd/ares/collab_graph.go:99-102 | ... and it never deletes a task without the collaboration prefix, though tasks of others may carry it |
| Janitor.TasksInFlightStay | cmd/ares/collab_graph.go:174-184 | no step of a sweep or a cleanup removes a task in flight |
| Janitor.WaitingReadsSucceed | cmd/ares/collab_graph.go:60-68 | a waiting run finds all its tasks, whatever sweeps and other runs do |
| Janitor.CleanupFindsItsTasks | cmd/ares/collab_graph.go:174-184 | no sweep deletes a task its run has yet to clean up |
| Janitor.CreateNeverCollides | cmd/ares/collab_graph.go:185-213 | the fabric never refuses a run's task because the id is taken |
| Janitor.PlayKeepsInv | cmd/ares/collab_graph.go:60-118 | the protocol's invariant holds after every schedule |
| CollabRun.ActiveRuns.Mark | cmd/ares/collab_graph.go:70 | adds the run |
| CollabRun.ActiveRuns.Unmark | cmd/ares/collab_graph.go:71 | removes the run |
| CollabRun.ActiveRuns.IsProtected | cmd/ares/collab_graph.go:75-85 | true exactly when some active run's prefix matches, whatever the iteration order |
| CollabRun.SweepStaleTasks | cmd/ares/collab_graph.go:97-118 | an uninterrupted sweep removes exactly the unprotected collaboration tasks that are not in flight, and counts them |
| CollabRun.HttpResidueHarvested | cmd/ares/collab_graph.go:87-93 | with HTTP runs only, that is exactly the tasks, not in flight, of runs no longer active |
| CollabRun.CheckNodes | cmd/ares/collab_graph.go:151-160 | accepts exactly named, capable, pairwise distinct nodes; the error tells what is wrong |
| CollabRun.CollectDeps | cmd/ares/collab_graph.go:161-167 | accepts exactly edges between known nodes, and lists dependencies with multiplicity |
| CollabRun.FromsExact | cmd/ares/collab_graph.go:161-167 | an edge makes its target depend on its source, as often as it is listed |
| CollabRun.ValidateSubmission | cmd/ares/collab_graph.go:151-170 | accepts exactly the well-formed acyclic submissions |
| CollabWait.KeepPending | cmd/ares/collab_graph.go:233-250 | the filter writes at or before the position it reads, so nothing unread is lost |
| CollabWait.Scan | cmd/ares/collab_graph.go:231-250 | one pass looks up the pending nodes in the fabric, in order and nothing else; outputs, failures and what stays pending are exactly what it saw, and a task that was over when it began is seen over |
| CollabWait.Classify | cmd/ares/collab_graph.go:239-248 | the switch over one task's state: its effect on outputs, progress, failures and the pending array |
| CollabWait.AfterScan | cmd/ares/collab_graph.go:230-267 | after each scan outputs and pending nodes again partition the nodes, and, unless something failed, the pending list is shorter exactly when something completed |
| CollabWait.ScanSplits | cmd/ares/collab_graph.go:234-249 | a scan splits what it looked at into nodes with output and nodes still pending |
| CollabWait.FailedExact | cmd/ares/collab_graph.go:243-245 | the failed list holds exactly the nodes some read saw failed |
| CollabWait.ScanNotices | cmd/ares/collab_graph.go:230-250 | a scan of all nodes gives every node whose task was over when the wait began its output |
| CollabWait.QuietScan | cmd/ares/collab_graph.go:264-279 | a scan in which nothing completed or failed read exactly the nodes without an output |
| CollabWait.WaitTurn | cmd/ares/collab_graph.go:230-267 | one pass of the loop ends the wait with the failures it saw or the node it could not read, or leaves fewer nodes pending, or has found every pending node unsettled |
| CollabWait.WaitForNodes | cmd/ares/collab_graph.go:223-280 | the fabric is asked for full scans of the nodes without output, in order, and nothing else, and outputs are what it answered; nil means every node was read completed; a failure names exactly the nodes the last scan saw failed, none failing before; a timeout or cancellation comes only after a full scan of exactly the nodes without output, none of them settled; an unreadable task ends the wait at the node that was next; and any task over at the start has its output unless a read failed |
| CollabWait.WaitForAll | cmd/ares/collab_graph.go:223-280 | the same for all nodes of a submission, whose reads never fail |
| CollabWait.CreateTasks | cmd/ares/collab_graph.go:185-213 | creates one task for each node in order until one is refused, and names that node; a refused id is someone else's |
| CollabWait.CreateAndWait | cmd/ares/collab_graph.go:185-280 | creation and wait: one task per node in order and then a wait that ends as above, or a refused id that is someone else's |
| CollabWait.Cleanup | cmd/ares/collab_graph.go:174-184 | deletes exactly the created tasks that are not in flight, and no others |
| CollabWait.RunCollabGraph | cmd/ares/collab_graph.go:144-280 | the run leaves the active set, creates one task per node in order and, unless an id is refused, for every node, and deletes only those; none of them stays but in flight, a rejected submission never touches the fabric; it asks the fabric for what its history says and nothing else; a nil error means each node's output is that of its completed task, and a failure, timeout or cancellation that the wait ended in that way, whatever happens to the tasks of others meanwhile |
| Scanner.Advances | examples/11-knowledge-import/scanner.go:15-38 | every dispatch consumes at least one line, whatever the patterns match |
| Scanner.EachLineOnce | examples/11-knowledge-import/scanner.go:15-38 | every non-blank line belongs to exactly one block |
| Scanner.RangesOrdered | examples/11-knowledge-import/scanner.go:15-38 | blocks are non-empty contiguous line ranges, in order and disjoint |
| Scanner.FencesStayWhole | examples/11-knowledge-import/scanner.go:55-80 | a fenced block runs through the first closing fence after its opening, or to the end of input |
| Scanner.BlockScanner.Scan | examples/11-knowledge-import/scanner.go:15-38 | one block per range, with the kind, level, language and text of its lines |
| Scanner.ScanBody | examples/11-knowledge-import/parser.go:93-94 | with the program's own expressions, whatever they match, the blocks are those ranges, cover every non-blank line, and none has blank text |
| Scanner.BlockNotBlank | examples/11-knowledge-import/scanner.go:15-38 | a block begun at a line with ink has ink |
| Scanner.BlockScanner.ConsumeHeading | examples/11-knowledge-import/scanner.go:41-52 | takes one line; level and title are the captured ones |
| Scanner.BlockScanner.ConsumeCode | examples/11-knowledge-import/scanner.go:55-80 | takes the lines up to and including the first closing fence |
| Scanner.BlockScanner.ConsumeTable | examples/11-knowledge-import/scanner.go:96-108 | takes exactly the maximal run of non-blank lines with a pipe |
| Scanner.BlockScanner.ConsumeList | examples/11-knowledge-import/scanner.go:111-127 | takes exactly the maximal run of items and indented lines before a blank line, heading or fence |
| Scanner.BlockScanner.ConsumeQuote | examples/11-knowledge-import/scanner.go:130-142 | takes exactly the maximal run of quote lines |
| Scanner.BlockScanner.ConsumeParagraph | examples/11-knowledge-import/scanner.go:145-159 | takes exactly the lines before the next structural boundary |
| ScanContent.KindsExact | examples/11-knowledge-import/scanner.go:15-38 | which of the six kinds a block has, as a function of what the patterns say of its first two lines, in the order in which they are asked |
| ScanContent.HeadingExact | examples/11-knowledge-import/scanner.go:41-52 | a heading block is its one line with the captured level and title |
| ScanContent.RunExact | examples/11-knowledge-import/scanner.go:96-159 | a table, list, quote or paragraph takes every line up to the first that does not go on with it |
| ScanContent.BodyExact | examples/11-knowledge-import/scanner.go:55-159 | every other block's text is its lines in order with a newline between neighbours, without the newlines at the end; a fenced block has the captured language |
| ScanContent.CompiledMeans | examples/11-knowledge-import/scanner.go:160-188 | what the program's own line predicates ask of a line |
| ScanContent.FencesClose | examples/11-knowledge-import/scanner.go:171-182 | which lines close a fence, on examples |
| Sections.PushVisible | examples/11-knowledge-import/chunker.go:98-101 | after a new heading the open headings are those strictly shallower, then itself: exactly the headings every later one is deeper than |
| Sections.BreadcrumbDepth | examples/11-knowledge-import/chunker.go:92-103 | open headings have strictly increasing levels, so at most six with levels one to six |
| Sections.OpenHeading | examples/11-knowledge-import/chunker.go:98-101 | popping from the end leaves exactly the shallower headings |
| Sections.HeadingPath | examples/11-knowledge-import/chunker.go:111-120 | the titles of the stack, after the document title unless the top heading has it |
| Sections.BreadcrumbStartsWithTitle | examples/11-knowledge-import/chunker.go:108-120 | a breadcrumb begins with the document title exactly once at its top |
| Sections.SplitSections | examples/11-knowledge-import/chunker.go:81-106 | the sections partition the blocks in order, each with one heading at most, its level and its exact breadcrumb |
| Packing.GroupBlocks | examples/11-knowledge-import/chunker.go:153-173 | contiguous non-empty groups that concatenate to the input, each a single block or within the limit, none able to take the next block |
| Packing.MaximalIsOptimal | examples/11-knowledge-import/chunker.go:150-152 | no other valid contiguous split uses fewer groups |
| Packing.FittingStaysWhole | examples/11-knowledge-import/chunker.go:122-124 | blocks that fit together form one group |
| ChunkContent.PairPacked | examples/11-knowledge-import/chunker.go:153-173 | two blocks share a group exactly if their bytes and two separators each fit the limit |
| ChunkContent.EmitInOrder | examples/11-knowledge-import/chunker.go:124-148 | the chunks of a section come from its groups in order, leaving out those with no text, and are continuations unless they come from the first |
| Chunker.ChunkBound | examples/11-knowledge-import/chunker.go:129-134 | a group within the limit gives a chunk of at most chunk size plus overlap runes when the overlap is positive; the first of a section at most the chunk size |
| Chunker.BlockLands | examples/11-knowledge-import/chunker.go:130-134 | a chunk contains every non-blank block of its group, trimmed at most at the chunk's ends, and is not empty |
| Chunker.ChunkIsBounded | examples/11-knowledge-import/chunker.go:122-148 | the same for every chunk of a document, whose index is its position |
| Chunker.FirstSeenExact | examples/11-knowledge-import/chunker.go:200-211 | block types are listed once each, in the order of their first blocks |
| Chunker.BlockTypes | examples/11-knowledge-import/chunker.go:200-211 | computes that list |
| Chunker.TruncateRunes | examples/11-knowledge-import/chunker.go:215-227 | a prefix of at most n characters for positive n, the whole text otherwise |
| Chunker.RenderBlocks | examples/11-knowledge-import/chunker.go:188-197 | computes the rendering that RenderLaysOut describes |
| ChunkContent.RenderLaysOut | examples/11-knowledge-import/chunker.go:188-197 | the rendering is the texts of the non-blank blocks in document order, the first at offset 0, each following the one before after a blank line, the last ending the string |
| ChunkContent.ChunkReads | examples/11-knowledge-import/chunker.go:129-148 | the content of every chunk, but for white space at its ends, is that rendering of its group, after the section heading cut to the overlap and a blank line if it is a continuation |
| ChunkContent.BlocksInTurn | examples/11-knowledge-import/chunker.go:129-134 | so in the content itself the trimmed block texts stand one after the other, all after the heading |
| Markdown.TrimExact | examples/11-knowledge-import/chunker.go:134 | trimming cuts exactly the white space at both ends |
| Markdown.WidthsAndSpaces | examples/11-knowledge-import/chunker.go:164 | how many bytes a character counts for, and which ones are white space, at the edges of their ranges |
| Chunker.ChunkSection | examples/11-knowledge-import/chunker.go:124-148 | each group of an unbeatable split of the section gives its chunk, in order, unless its text is empty, and is a continuation exactly when it is not the first; every non-blank block is in exactly one group |
| Chunker.ChunkDocument | examples/11-knowledge-import/chunker.go:41-51 | the same for a document: indices count from zero without gaps, every non-blank block is in exactly one chunk's group in document order, and every chunk has its section's exact breadcrumb |
| ChunkBounds.KnowledgeConfig.ApplyDefaults | examples/11-knowledge-import/config.go:195-214 | exactly the unset fields get their defaults |
| ChunkBounds.KnowledgeConfig.Validate | examples/11-knowledge-import/config.go:268-282 | accepts exactly the configurations in range, and names the first check that fails |
| ChunkBounds.KnowledgeConfig.Load | examples/11-knowledge-import/config.go:130-135 | whatever the file says, an accepted configuration is the file's with the unset fields defaulted, is in range, has a positive overlap and bounds every document's chunks |
| ChunkBounds.ImportDocument | examples/11-knowledge-import/store.go:236 | with a loaded configuration the chunks are exactly those of the document's sections and groups, every one that is not a single oversized block has at most chunk size plus overlap characters, and every scanned block lands exactly once |
| ChunkBounds.BoundExactlyWithOverlap | examples/11-knowledge-import/chunker.go:129-134 | called with any configuration at all, including those the loader refuses, chunking bounds the chunks of every document exactly when the overlap is positive or the size too small for any block |
| ChunkBounds.NoOverlapNoBound | examples/11-knowledge-import/chunker.go:131-133 | for every other configuration, a document with a chunk over the limit |
| Calculator.Sum | api/tools/builtin.go:213-235 | a successful parse strictly advances and stays in bounds |
| CalcRoundTrip.RoundTrip | api/tools/builtin.go:184-304 | evaluating a printed expression tree gives the tree's own value, operands left to right, with all tokens consumed, or its first error: precedence, left associativity, signs and division by zero as coded |
| CalcRoundTrip.OperatorsMean | api/tools/builtin.go:213-262 | in both dialects x - y is sub(x, y) and x / y div(x, y), in that order, and likewise sums and products; a zero divisor is an error |
| CalcRoundTrip.LeftToRight | api/tools/builtin.go:213-262 | in both dialects x - y - z is (x - y) - z, x / y / z is (x / y) / z, and a product goes before a sum on either side |
| CalcRoundTrip.SignsMean | api/tools/builtin.go:264-276 | a minus sign negates the operand after it; a plus sign leaves it alone in the calculator and is an error in the demo |
| CalcRoundTrip.WordsMean | api/tools/builtin.go:278-304 | a single word is its number, or in the calculator a named constant, or an error |
| CalcRoundTrip.ErrorsMean | api/tools/builtin.go:278-304 | nothing to read, a missing parenthesis and leftover tokens: which error, or none, in which dialect |
| CalcRoundTrip.SumReads | api/tools/builtin.go:213-235 | in any context that no product operator follows, a printed sum leaves the parser in its loop with the sum's value |
| CalcRoundTrip.ProductReads | api/tools/builtin.go:237-262 | the same for products, in any context |
| CalcRoundTrip.FactorReads | api/tools/builtin.go:264-276 | a printed signed operand is read exactly |
| CalcRoundTrip.AtomReads | api/tools/builtin.go:278-304 | a printed operand or parenthesised expression is read exactly |
| CalcDialects.CalculatorFollowsDemo | examples/02-tool-calling/main.go:223-343 | of what the demo accepts the calculator accepts exactly the inputs without a repeated minus sign, with the same value |
| CalcDialects.DemoFollowsCalculator | api/tools/builtin.go:213-304 | of what the calculator accepts the demo accepts exactly the inputs read to the end without a sign plus or a named constant, with the same value |
| CalcDialects.EvaluatorsAgree | api/tools/builtin.go:184-304 | when both accept a token list they return the same value |
| CalcText.TextsAgree | examples/02-tool-calling/main.go:181-199 | when both accept a text they return the same value |
| CalcText.LexReads | api/tools/builtin.go:190-211 | tokenizing the text of legible tokens gives the tokens back |
| CalcText.PrintedTextEvaluates | api/tools/builtin.go:184-188 | from tree to text and back through the tokenizer: the tree's value or error |
| CalcText.TextsMean | api/tools/builtin.go:184-262 | the four operators between two numerals as written in a text |
| CalcText.ParensMean | api/tools/builtin.go:278-291 | parentheses as written in a text |
| CalcText.DemoTextsMean | examples/02-tool-calling/main.go:181-308 | the four operators between two numerals in a text of the demo |
| CalcText.FirstBadExact | examples/02-tool-calling/main.go:187-192 | the demo refuses exactly the texts with a character outside its alphabet, and names the first |
| Evaluators.Tokenize | api/tools/builtin.go:190-211 | computes the calculator's tokens |
| Evaluators.ParseExpr | api/tools/builtin.go:213-235 | the loop computes the grammar's left-associative sum |
| Evaluators.ParseMulDiv | api/tools/builtin.go:237-262 | the loop computes the left-associative product, stopping at a zero divisor |
| Evaluators.ParseUnary | api/tools/builtin.go:264-276 | at most one sign, plus or minus |
| Evaluators.ParsePrimary | api/tools/builtin.go:278-304 | parenthesis, number, named constant or error |
| Evaluators.EvalExpr | api/tools/builtin.go:184-188 | the value of the text; what follows the first sum is ignored |
| Evaluators.RemoveSpaces | examples/02-tool-calling/main.go:183 | drops exactly the spaces |
| Evaluators.DemoTokenize | examples/02-tool-calling/main.go:202-220 | computes the demo's tokens |
| Evaluators.TokenParser.Consume | examples/02-tool-calling/main.go:251-255 | returns the current token, or the empty one past the end, and advances |
| Evaluators.TokenParser.ParseAddSub | examples/02-tool-calling/main.go:258-280 | the stateful parser computes the grammar's sum and stops at its position |
| Evaluators.TokenParser.ParseMulDiv | examples/02-tool-calling/main.go:283-308 | the same for products |
| Evaluators.TokenParser.ParsePrimary | examples/02-tool-calling/main.go:311-343 | the same for operands with any number of minus signs |
| Evaluators.DemoParse | examples/02-tool-calling/main.go:223-234 | leftover tokens are an error |
| Evaluators.SimpleEval | examples/02-tool-calling/main.go:181-199 | empty text and the first character outside the alphabet are refused; otherwise the value of the text |

## Left out

- RunConfluence: is about graphs without a router, whose seed is whichever sibling happens to complete first, and about runs that are not cancelled.
- AgentsAreFed: is about graphs without a router and keys that nobody else writes; what one execution of an agent is asked is in AnswersItsInput, without assumptions.
- RoundConfluence: assumes that no nested run is cancelled during the round, because cancellation can make a nested graph fail on its own; SameAnswersSameEnd does not.
- Timeouts, deadlines and cancellation reach the model as an arbitrary choice at each loop head, and in the wait loop as a budget of timer ticks.
- The limit on parallel nodes in a round only removes interleavings; every interleaving is modelled.
- Incrementing a node's execution counter and copying the state are two locked sections in the code and one Begin step here; nothing reads the counter in between.
- `NodeResults` (the per-node result map of a run) is write-only bookkeeping.
- State values are opaque apart from being a string or not; values shared by shallow copies, and routers or conditions that write to the state map they are given, are not modelled.
- Nested graphs are values: a graph nested in itself, and mutation of a nested graph between two of its executions, are not modelled.
- Panics of node functions count as errors, as the code recovers them.
- Agent submission, agent registration and the kernel scheduler are arbitrary outcomes of an agent node.
- RunCollabGraph: assumes that nobody else creates or deletes the run's own tasks while it is active, which the Janitor results establish for the protocol, and takes its cleanup as one uninterrupted stretch.
- The task fabric is not part of this model beyond what the collaboration code relies on: Create refuses an existing id, Delete refuses tasks in flight, completed and failed tasks stay so. LEASED, RUNNING and SUSPENDED are one state. Dependencies, retry policies and checkpoints of created tasks are not represented.
- CreateNeverCollides: assumes that whoever else uses the fabric takes no id that a planned run gives its tasks; other ids with the collaboration prefix are anyone's.
- NoUpdateLostExactly: is about nodes whose writes do not depend on their input; RoundConfluence covers others, one way.
- The Janitor model has a single sweep at a time, as one background loop runs it, and unbounded run numbers; the wrap-around of the 64-bit sequence is not modelled.
- Error texts, HTTP statuses and logging are reduced to error kinds.
- Regular expressions and number parsing are arbitrary functions; no conformance with a Markdown standard is claimed, and the length of a closing fence is not compared, as in the code. Invalid UTF-8 is not modelled.
- Floating point is uninterpreted: all arithmetic results hold for any operations, and number parsing is only assumed to reject the six symbols.
- Front matter, title and tag resolution, embedding, storage, the metadata map of chunks, and the database, embedding and model sections of the configuration file.
- HTTP and IPC handlers, CLI, configuration, evolution, monitoring and the recovery loop.
