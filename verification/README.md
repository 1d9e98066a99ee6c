# Verified model of the bachkator execution engine

This project models, in Dafny, how bachkator runs targets and Plans, and proves what the code promises about
every run. Four parts are covered.

**The target execution engine.** A request becomes a plan (`internal/runner/plan.go`), the plan becomes a DAG of
target, scope-start and barrier vertices (`internal/runner/execution_graph.go`), `dag.Walk` runs the DAG in parallel
(`internal/dag/dag.go`), and the session with its lock manager decides which ready vertex may start
(`internal/runner/session.go`, `internal/runner/scheduler.go`).

- `Digraph` and `Insertion` hold the graph theory: reachability, acyclicity, topological orders, and edges inserted
  one at a time behind a reachability guard. `Dag` is the graph class with its search, its Kahn counters and its
  orders.
- `Walk` is the transition system of the parallel walk: the scheduling loop, the workers and the cancellation as one
  step relation, with every interleaving a run. `Session` is the lock manager and the session as classes over an
  abstract lock state. `Engine` puts the two together, worker step by worker step, and is proved to be a refinement
  of `Walk`. `EngineLocks` and `EngineSafety` are the invariants and theorems over all engine runs.
- `Planner` is the planner class and the composite edges; `PlanOrder` says what its visit order means for a request.
  `BuildSpec` says as pure functions what the graph builder
  does. `BuildInvariant` and `BuildSafety` show that every insertion keeps the invariant, which contains acyclicity;
  `BuildResults` reads off what the finished graph guarantees. `ExecutionGraph` is the builder class with its
  recursive methods and maps; each method is proved to compute the corresponding function of `BuildSpec`.
- `EndToEnd` composes all of it: from a project and the requested names to what any run of the engine does.
  `LonePipeline` is about plans with one pipeline, `NestedLocks` and `NestedPlans` about composites that share a lock,
  `Termination` and `Waits` about how runs end and when they stop short, `Outcomes` about what becomes of a body's
  outcome and of a cancellation. `ProjectLaws` says what planning, building and running promise together in terms of the
  project, the request and the events of a run alone.
- `Schedule` shows that runs exist: it drives the engine through a graph vertex by vertex. With it `EarlyPipeline`,
  `NestedRuns`, `NestedExample` and `DeepExample` lead from a project to a run in which something goes wrong.

**The Plan batch engine.** `Levels` is the theory of dependency levels, `Waves` the wave computation
(`internal/plan/graph.go`), `Status` the ledger check and the status derivation (`internal/plan/status.go`), `Batch`
the parallel batch with its workers and its sequential specification (`internal/planbatch/execute.go`). `BatchLaws`
says what that comes to, in terms of the job, the list returned and the calls made.

**Variables** (`internal/config/config_vars.go`). The unordered fixpoint against the unique solution of the defaults.

**Streams** (`internal/agentprovider/opencode_events.go`, `internal/runner/console.go`). `Stream` has the bounded
incremental readers and writers against a definition on the whole stream.

Maps are iterated, and the ready lists of the walk sorted, in an arbitrary order: every theorem holds for all orders.

## What turned out to be different

Where the code and an expected property disagree, the model follows the code; a lemma shows the difference on a
concrete input or names the exact condition under which the property holds.

- `docs/reference.md:879` says that the steps of a pipeline run in order. In any composite, a step that needs one
  declared after it is listed after it (`PlanOrder.ReorderedSteps`). A requested composite whose steps are declared once
  each, and are needed neither by an earlier request nor by its dependencies, keeps the declared order if and only if no
  step is needed by one declared before it (`PlanOrder.DeclaredOrderIff`).
- `addExecutionEdge` drops an edge silently when the opposite path exists. In a plan whose only composite is one
  pipeline with distinct steps, a sequence edge is dropped exactly when a step that a dependency of the pipeline has
  already completed follows a step that is not such (`LonePipeline.OnlyPipelineSequenceIff`). The pipeline's own vertex
  comes after everything its steps need exactly when, at each such place, some later step needs the step before
  (`LonePipeline.OnlyPipelineEndsLastIff`). If the pipeline is requested first, its dependencies are visited before its
  steps and no edge is dropped (`LonePipeline.FirstRequestKeepsSequence`). Otherwise it can happen: with steps `x`, `b`,
  a dependency on `b`, `x` requested first and two workers, the pipeline's vertex starts before `x` has returned
  (`EarlyPipeline.PipelineStartsBeforeItsStep`), and it frees the lock of the pipeline while `x` works under it
  (`EarlyPipeline.StepLosesItsLock`).
- `finishScope` frees the lock of the composite even if its scope start was admitted because an enclosing scope
  already had that lock. Let a composite be a direct child of one with the same lock, let the outer one end after
  everything its steps need, and let the inner one not have to open before it: then the step with which the inner one
  ends leaves the outer one open without its lock (`NestedPlans.InnerEndFreesOuter`). In a plan where every pipeline
  ends after everything its steps need and no inner composite has to open before its outer one, a run keeps the locks
  of all open scopes throughout if and only if no such inner composite comes to its end (`NestedPlans.LocksHeldIff`).
  Both conditions matter: an inner composite that is also a dependency of the outer one ends before that opens and
  costs it nothing. In a plan without direct children that share the lock, open scopes keep their locks in every run,
  with no further condition (`NestedRuns.NotNestedSoHeld`). This is exact where each such child opens after its outer
  composite, the outer one ends after everything its steps need, and what the child waits for does not contend for
  locks (`NestedRuns.ScopesKeepLocksIffNotNested`). `NestedExample.ExclusionIsLost` is a project and a run in which two
  targets work under one lock with no open scope in common. Mutual exclusion is proved for plans without such nesting
  in which every pipeline ends after everything its steps need (`EndToEnd.PlannedLocksExclude`).
- A composite that a child of one with the same lock needs, without being a child or needed by a dependency itself, is
  not a member of the outer scope. In a plan in which no composite is a direct child of one with its lock, such a pair
  can never both be open, and no run succeeds, if the outer composite ends after everything its steps need and the
  inner one does not have to end before the outer one opens (`NestedPlans.DeepNestingNeverSucceeds`).
  `DeepExample.DeepProjectNeverSucceeds` is a project that is planned and built like that. Where some composite is a
  direct child of one with its lock, the end of that child may free the lock and let such a run go on.
- A run waits with nothing at work only if composites wait in a circle for each other's locks
  (`Waits.IdleWaitHasCircle`), and never in a plan in which the lock of each composite is declared only inside it
  (`Waits.InsideLockedPlansReturn`).
- `docs/reference.md:2190` calls a Plan ready when all selected dependencies are implemented. In the code a Plan
  with dependencies and no ledger is at best planned (`Status.ReadyIff`,
  `Status.ImplementedDependencyLeavesPlanned`).
- `docs/reference.md:589-594` lists the environment variable with the exact name before the upper-case one. In the
  code the upper-case one wins (`Variables.UpperCaseWins`).
- The same list ends with the empty string for a variable without a default. Such a variable has that value in the
  result, but a default that refers to it is rejected (`Variables.EmptyVariableCannotBeReferenced`).
- A Plan that names its one dependency twice is put into its wave twice (`Waves.NamedTwiceListedTwice`), and then
  implemented twice. No wave lists a Plan twice if and only if each Plan names once the greatest, in the order of IDs,
  of its dependencies on the level just before its own (`Waves.EveryWaveDistinctIff`).

## Model

| member | source | states |
|---|---|---|
| Digraph.AcyclicAfterEdge | internal/runner/execution_graph.go:244-249 | an edge added to an acyclic graph keeps it acyclic if and only if it was there already or its source cannot be reached from its target: the guard is exactly the condition |
| Dag.Graph.AddVertex | internal/dag/dag.go:47-61 | a kind once given is never replaced, the zero identifier is never a vertex, nothing else changes |
| Dag.Graph.AddEdge | internal/dag/dag.go:63-77 | zero endpoints and self edges change nothing; otherwise both ends become vertices and exactly one edge is added |
| Dag.Graph.Successors | internal/dag/dag.go:122-142 | each target of a kept edge out of the vertex, once |
| Dag.Graph.Visit | internal/dag/dag.go:204-227 | one call of the search: a reported list is a genuine cycle; without one, no vertex visited so far lies on a cycle and the search stack is restored |
| Dag.Graph.CyclePath | internal/dag/dag.go:413-424 | the tail of the search stack closed by the repeated vertex is a cycle of the filtered graph |
| Dag.Graph.ValidateAcyclic | internal/dag/dag.go:201-235 | nil if and only if the filtered graph is acyclic; otherwise the reported list is a genuine cycle |
| Dag.Graph.TopologicalOrder | internal/dag/dag.go:171-199 | an error exactly on a cycle; otherwise every vertex once, after all its filtered predecessors |
| Dag.DependencyState | internal/dag/dag.go:354-377 | each counter is the number of distinct predecessors, each list of dependents has every successor once, however many kinds of edge join two vertices |
| Dag.ZeroRemaining | internal/dag/dag.go:379-387 | exactly the vertices whose counter is zero, each once |
| Dag.LowerCounters | internal/dag/dag.go:337-342 | every dependent is lowered by one and those that reach zero are collected, each once |
| Dag.CountsAfterFinish | internal/dag/dag.go:337-343 | after a vertex finishes, every counter is again the number of unfinished distinct predecessors and the ready list again holds exactly the vertices without any, each once |
| Dag.AllDrained | internal/dag/dag.go:280-291 | in an acyclic graph, if nothing is ready and nothing is unfinished among the taken, everything is done |
| Walk.InvStep | internal/dag/dag.go:237-347 | every step of the walk keeps the invariant: exact counters, exact ready list, workers within the limit, control state consistent |
| Walk.RunInv | internal/dag/dag.go:237-347 | the invariant holds in every state of every run |
| Walk.IdleHasReady | internal/dag/dag.go:289-291 | with no worker, no error and work left there is a ready vertex: the walk always makes progress or waits for a lock |
| Walk.StartsAfterPredecessors | internal/dag/dag.go:265-278 | in every run a vertex starts only after Run has returned nil for each predecessor |
| Walk.StartsAfterAncestors | internal/dag/dag.go:265-278 | the same for every vertex that leads to it by any path |
| Walk.StartsOnce | internal/dag/dag.go:271-276 | in every run each vertex starts at most once, so a successful reservation is matched by one Run |
| Walk.NothingStartsAfterError | internal/dag/dag.go:266-333 | no vertex starts after the first error has been received |
| Walk.NothingStartsAfterCancel | internal/dag/dag.go:265-278 | once the context is done no vertex starts, unless one is just being tried |
| Walk.OneStartAfterCancel | internal/dag/dag.go:265-278 | in any case at most one vertex starts after the context is done |
| Walk.ErrorsAreReturned | internal/dag/dag.go:311-346 | once a callback has returned an error, whenever it is received, the walk can only return an error |
| Walk.WalkResults | internal/dag/dag.go:280-347 | at most as many callbacks run at once as asked for, one if the number is not positive; at any return none is in flight; the no-progress error never occurs; nil means that every vertex ran and succeeded; a cancelled walk was cancelled; the blocked error needs a caller without a notification channel |
| Walk.FailureIsReported | internal/dag/dag.go:327-331 | the error returned is one that some callback reported |
| Session.LockManager.TryAcquire | internal/runner/scheduler.go:72-83 | succeeds exactly when no lock is asked for or it is free, and then holds it |
| Session.LockManager.Release | internal/runner/scheduler.go:85-94 | frees the lock and closes one generation of the wait channel; an empty lock does nothing |
| Session.LockManager.Changed | internal/runner/scheduler.go:96-100 | the channel of the current generation |
| Session.RunSession.LockHeldByActiveScope | internal/runner/session.go:356-369 | true if and only if some open scope that the vertex is a member of declares the lock |
| Session.RunSession.TryReserveLock | internal/runner/session.go:343-354 | refused exactly when the lock is held and not covered by an open scope; acquired and recorded exactly when it is needed, free and not covered |
| Session.RunSession.TryReserveExecutionNode | internal/runner/session.go:330-341 | the same with the lock that the kind of vertex needs: composite ends and barriers need none |
| Session.RunSession.StartScope | internal/runner/session.go:265-284 | the scope is open, nothing else changes |
| Session.RunSession.FinishScope | internal/runner/session.go:286-299 | the scope is closed and the composite's lock freed, whoever acquired it |
| Session.RunSession.ReleaseExecutionNode | internal/runner/session.go:371-377 | the reservation is gone and the lock recorded in it, if any, is freed |
| Session.RunSession.ForgetExecutionNodeReservation | internal/runner/session.go:379-383 | the reservation is gone and its lock still held |
| Session.RunSession.CloseActiveScopes | internal/runner/session.go:301-328 | no scope is open, exactly the locks of those that were are freed, reservations are untouched |
| Session.RunSession.RunExecutionNode | internal/runner/scheduler.go:33-60 | for each kind of vertex and each way its body ends, the lock state it leaves: a scope start hands its lock to the open scope or frees it, a scope end closes and frees, a target frees its own reservation |
| Engine.StepRefinesWalk | internal/runner/scheduler.go:15-31 | every step of walk, workers and session together is a step of the walk alone, and a refusal by the session is a refusal seen by the walk |
| Outcomes.BodyDecides | internal/runner/scheduler.go:33-60 | in every run, if the body of a vertex fails, its Run never returns nil, and if it ends well, its Run never returns an error |
| Outcomes.FailureStopsDescendants | internal/runner/scheduler.go:57-59 | a vertex whose body fails never succeeds, nothing that it leads to starts, and the run never returns success |
| Outcomes.FailureIsReturned | internal/dag/dag.go:326-346 | a run in which some body has failed can only return an error |
| Outcomes.ReturnedErrorIsReal | internal/dag/dag.go:326-331 | ... of a vertex whose Run returned one |
| Outcomes.TargetAlone | internal/runner/scheduler.go:53-59 | undisturbed, the steps of a target free its own reservation and report what its body ended with |
| Outcomes.ScopeEndAlone | internal/runner/scheduler.go:48-52 | ... those of a composite close its scope, free its lock and report the same |
| Outcomes.StartAlone | internal/runner/scheduler.go:34-44 | ... those of a scope start open the scope and keep the lock, or free it and report the error |
| Outcomes.CancelStopsStarts | internal/dag/dag.go:265-278 | in engine runs at most the vertex just being tried starts after the context is done |
| Outcomes.CancelledRunsReturn | internal/dag/dag.go:295-323 | the context can be cancelled at any moment, and a cancelled run that cannot go on has returned |
| EngineLocks.InvStep | internal/runner/session.go:265-383 | every engine step keeps: who runs is staged, reservations belong to running vertices, a scope is open exactly from its start to its end, each held lock has an owner |
| EngineLocks.RunInv | internal/runner/session.go:265-383 | ... in every state of every run |
| EngineLocks.RunRefinesWalk | internal/runner/scheduler.go:15-31 | every engine run is a run of the walk, so the theorems about the walk hold of it |
| EngineLocks.NothingLeftHeld | internal/runner/scheduler.go:15-31 | when the walk has returned, for whatever reason, no reservation is recorded and every lock still held is declared by an open scope, so that closing the scopes frees all |
| EngineLocks.OnlyScopesBlockIdleWalk | internal/dag/dag.go:282-304 | with nothing running, every held lock belongs to an open scope |
| EngineSafety.MutualExclusion | internal/runner/session.go:330-369 | in every run two targets with the same lock are at work together only inside one open scope that owns the lock and has both as members |
| EngineSafety.ScopeKeepsItsLock | internal/runner/session.go:265-299 | while a scope is open its lock is held, no other open scope has it, and only members of the scope work under it |
| EngineSafety.NoLostWakeup | internal/dag/dag.go:295-310 | if the walk waits with room and a ready vertex, that vertex needs a lock which is still held, or the channel waited on is already closed |
| EngineSafety.IdleWaitNeedsOpenScope | internal/dag/dag.go:295-304 | an idle wait with no wake-up pending is caused by an open scope with the very lock the ready vertex needs |
| EngineSafety.LeafLocksNeverBlockIdleWalk | internal/dag/dag.go:282-304 | if only leaf targets declare locks, the walk never waits with nothing running, and whatever is ready could start |
| EngineSafety.InterlockedNeverSucceeds | internal/runner/session.go:343-354 | two composites with one lock, each of which must open before the other can end, are never both open, so no run succeeds |
| NestedLocks.ClosingFreesOuter | internal/runner/session.go:286-299 | in every state of a run, the step that ends a composite leaves the one it runs within open without their common lock |
| NestedLocks.ScopesKeepLocksIff | internal/runner/session.go:265-299 | where every composite that is a member of one with its lock opens after it, ends before it and shares its members with it unless they are done by then, a run keeps the locks of all open scopes throughout if and only if no such inner composite ends |
| Termination.StepLowers | internal/dag/dag.go:237-347 | every step that changes anything lowers a measure of what is left to do |
| Termination.RunsAreBounded | internal/dag/dag.go:237-347 | the length of a run without idle steps is bounded by a polynomial in the number of vertices |
| Termination.GoesOnIff | internal/dag/dag.go:266-346 | a run can go on without outside help if and only if the walk has not returned and does not wait idle for a lock that nobody is about to free |
| Termination.LeafLockedRunsReturn | internal/dag/dag.go:282-304 | if only leaf targets declare locks, a run that cannot go on has returned |
| Schedule.Begin | internal/dag/dag.go:254-262 | there is a run that begins with any vertices without predecessors at the head of the ready list |
| Schedule.Round | internal/dag/dag.go:265-343 | where one more vertex fits, a run can go on with the first ready vertex starting, any vertex at work finishing, and any startable vertices tried next |
| Planner.CanonicalNames | internal/runner/plan.go:71-80 | every name that resolves, once, in the order of first mention, and no other |
| Planner.RunPlanner.Visit | internal/runner/plan.go:177-208 | fails exactly where the recursive post-order of dependencies, children and the name itself does, and otherwise leaves exactly that order; an error means that the name reaches a missing target, unreadable children or a cycle |
| Planner.BuildPlanForTargets | internal/runner/plan.go:66-115 | succeeds if and only if some name resolves and no resolved name reaches a missing target, unreadable children or a cycle; then every resolved name is planned, and the order is the post-order of the visits to them, with exactly the reachable targets, each once, after all it names |
| Planner.OrderedIsSound | internal/runner/plan.go:177-208 | nothing that has been ordered reaches a missing target or a cycle |
| Planner.KidsBefore | internal/runner/plan.go:189-205 | whatever a planned target names is planned, at an earlier position |
| Planner.CompositeEdges | internal/runner/plan.go:229-250 | the edges of the planned declared children, sorted by the plan positions of their ends |
| Planner.StableSortIff | internal/runner/plan.go:243-248 | the sorted list is the only one that is ordered by plan positions and keeps edges at the same positions in their order |
| Planner.ChildrenOfKind | internal/runner/plan.go:262-270 | the sources of the edges of that kind into the target, in the order of the edges |
| Planner.HasCompositeScope | internal/runner/plan.go:272-279 | true if and only if the target has a pipeline step or a group member |
| Planner.ChildrenInPlanOrder | internal/runner/plan.go:243-270 | the children read back are the declared ones with multiplicity, in plan order |
| PlanOrder.DeclaredOrderIff | internal/runner/plan.go:177-208 | the children of a requested composite that nothing visited before needs are listed as declared if and only if none is needed by one declared before it |
| PlanOrder.ReorderedSteps | internal/runner/plan.go:177-208 | in any planned composite a child that needs one declared after it is listed after it, so the declared order is lost |
| PlanOrder.DependenciesPlannedFirst | internal/runner/plan.go:189-204 | what the dependencies of a requested target need comes before whatever neither they nor an earlier request needs |
| PlanOrder.PlanExists | internal/runner/plan.go:66-115 | whenever all visits succeed there is a plan with their order |
| Planner.SwapProjectIsPlanned | internal/runner/plan.go:66-115 | such a project is accepted, so the reordering does occur |
| Planner.EffectiveRisk | internal/runner/plan.go:281-290 | each risk is set if and only if some planned target has it |
| Insertion.StarNext | internal/runner/execution_graph.go:173-188 | guarded edges from one vertex, inserted one at a time, give the same graph in any order |
| Insertion.StarAcyclic | internal/runner/execution_graph.go:244-249 | guarded insertion keeps the graph acyclic |
| Insertion.StarComparable | internal/runner/execution_graph.go:244-249 | after a guarded insertion its two ends are comparable by a path, whether the edge was kept or dropped |
| Insertion.IntoReach | internal/runner/execution_graph.go:191-193 | edges into a vertex without outgoing edges change no other reachability |
| Insertion.IntoAcyclic | internal/runner/execution_graph.go:156-158 | unguarded edges into a vertex without outgoing edges keep the graph acyclic |
| BuildSafety.SequencedAtInsertion | internal/runner/execution_graph.go:180-188 | when the sequence edges of a step are inserted, every target that the step is first to need lies behind the barrier of the step before |
| BuildSafety.LoneAtInsertion | internal/runner/execution_graph.go:180-188 | in a plan with one pipeline, no sequence edge of a step is dropped unless the step was already completed |
| BuildSafety.AddStepKeeps | internal/runner/execution_graph.go:162-196 | wiring one step keeps the build invariant, acyclicity included |
| BuildSafety.AddMemberKeeps | internal/runner/execution_graph.go:219-239 | wiring one group member keeps it |
| BuildSafety.VisitKeeps | internal/runner/execution_graph.go:91-143 | adding the closure of any target keeps it, and leaves the targets still being visited without outgoing edges |
| BuildResults.BuildSucceeds | internal/runner/execution_graph.go:45-76 | the build fails for no plan in which everything named comes earlier |
| BuildResults.BuildKeeps | internal/runner/execution_graph.go:60-67 | the finished graph satisfies the invariant, so it is acyclic and has every requested target |
| BuildResults.DependencyPrecedes | internal/runner/execution_graph.go:107-112 | a dependency has an edge to the target and to the start of its scope |
| BuildResults.GroupWaitsForMembers | internal/runner/execution_graph.go:230-239 | everything that a member needs has an edge to the group's vertex |
| BuildResults.StartPrecedesEnd | internal/runner/execution_graph.go:197-200 | a scope start has an edge to its composite's vertex |
| BuildResults.MembershipExact | internal/runner/execution_graph.go:163-179 | a target is a member of a scope if and only if some child needs it and no dependency of the composite does; then it is comparable with the scope start |
| BuildResults.StepPrecedesBarrier | internal/runner/execution_graph.go:189-193 | everything that a step needs has an edge to the barrier of the step |
| BuildResults.BarrierLink | internal/runner/execution_graph.go:180-194 | a barrier leads to the next one if and only if it kept some outgoing edge |
| BuildResults.BarriersPrecedeEndIff | internal/runner/execution_graph.go:197-199 | all barriers lead to the pipeline's vertex if and only if each but the last kept an outgoing edge |
| BuildResults.StepsPrecedeEnd | internal/runner/execution_graph.go:189-200 | then everything that the steps need comes before the pipeline's vertex |
| BuildResults.StepsInSequence | internal/runner/execution_graph.go:162-196 | when other composites overlap the pipeline only as nested ones, every target first needed by a step comes after all targets of the step before |
| BuildResults.NestedPipelineEndsLast | internal/runner/execution_graph.go:162-200 | if besides each step after the first is new, the pipeline's vertex comes after everything its steps need |
| BuildResults.MembersPrecedeEnd | internal/runner/execution_graph.go:163-200 | members of a scope come before its end as long as the composite ends after everything its steps need |
| BuildResults.LoneSequenceIff | internal/runner/execution_graph.go:180-188 | with one pipeline as the only composite, no sequence edge is dropped if and only if no step already completed follows one that is not |
| BuildResults.LonePipelineEndsLastIff | internal/runner/execution_graph.go:145-202 | with one pipeline as the only composite, its vertex comes after everything its steps need if and only if, wherever a completed step follows one that is not, a later step needs the latter |
| BuildResults.GapLosesStep | internal/runner/execution_graph.go:180-188 | where that fails, no path leads from the step to the pipeline's vertex |
| BuildResults.StaleStepBreaksChain | internal/runner/execution_graph.go:180-188 | where the condition fails, the barrier before the completed step has no outgoing edge |
| ExecutionGraph.Builder.HasPath | internal/runner/execution_graph.go:251-265 | a search with shared visited vertices: true only along a path; false only if the visited set is closed up to what the caller had visited and misses the goal |
| ExecutionGraph.Builder.Reaches | internal/runner/execution_graph.go:245 | from an empty visited set the search decides reachability |
| ExecutionGraph.Builder.AddExecutionEdge | internal/runner/execution_graph.go:244-249 | the edge is added if and only if its source cannot be reached from its target |
| ExecutionGraph.Builder.AddTargetVertex | internal/runner/execution_graph.go:288-294 | the vertex is added and its scope recorded |
| ExecutionGraph.Builder.AddBarrier | internal/runner/execution_graph.go:296-300 | the barrier vertex is added |
| ExecutionGraph.Builder.AddScopeStart | internal/runner/execution_graph.go:302-306 | the scope start vertex is added |
| ExecutionGraph.Builder.AddMemberScope | internal/runner/execution_graph.go:308-322 | the scope is recorded for the vertex, at most once |
| ExecutionGraph.Builder.ClosuresFor | internal/runner/execution_graph.go:274-280 | the union of what the names need |
| ExecutionGraph.Builder.EnterScope | internal/runner/execution_graph.go:173-179 | whatever the iteration order, all vertices not yet complete get the scope edge and the membership |
| ExecutionGraph.Builder.SequenceFrom | internal/runner/execution_graph.go:180-188 | whatever the iteration order, all vertices not yet complete get the sequence edge that the graph before allowed |
| ExecutionGraph.Builder.FinalizeInto | internal/runner/execution_graph.go:191-193 | every vertex of the closure gets its edge to the barrier: the guard drops none |
| ExecutionGraph.Builder.EnterGroup | internal/runner/execution_graph.go:230-238 | scope edges and group edges of a member's closure, in any order |
| ExecutionGraph.Builder.WireStep | internal/runner/execution_graph.go:168-195 | the body of the step loop does what the specification of one step says |
| ExecutionGraph.Builder.WireMember | internal/runner/execution_graph.go:225-238 | the body of the member loop does what the specification of one member says |
| ExecutionGraph.Builder.AddPipeline | internal/runner/execution_graph.go:145-202 | the recursive method on maps computes the specified pipeline part and collects the steps' closures |
| ExecutionGraph.Builder.AddGroup | internal/runner/execution_graph.go:204-242 | the same for the group part |
| ExecutionGraph.Builder.AddClosure | internal/runner/execution_graph.go:91-143 | succeeds if and only if the specification does, with the specified graph, and returns exactly what the target needs |
| ExecutionGraph.BuildExecutionGraph | internal/runner/execution_graph.go:45-76 | succeeds if and only if the specification does, with that graph; the final cycle check never fails |
| ExecutionGraph.ClosureIsUnion | internal/runner/execution_graph.go:106-141 | the closure collected along the way is everything reachable through dependencies, steps and members |
| EndToEnd.PlanIsRanked | internal/runner/plan.go:66-115 | every plan ranks what a target names before the target |
| EndToEnd.PlanBuilds | internal/runner/execution_graph.go:45-76 | every plan that the planner accepts is built |
| EndToEnd.PlanAndBuild | internal/runner/runner.go:94-101 | planning then building: the second never fails after the first succeeded |
| EndToEnd.EveryTargetBuilt | internal/runner/execution_graph.go:60-64 | where every child is a pipeline step or a group member, the graph holds exactly the planned targets |
| EndToEnd.BuiltSuitsEngine | internal/runner/scheduler.go:15-26 | every built graph meets all assumptions of the walk and the session |
| EndToEnd.StartsAfter | internal/runner/scheduler.go:15-31 | in every run of a built plan a vertex starts only after Run returned nil for every vertex that leads to it |
| EndToEnd.DependenciesFirst | internal/runner/execution_graph.go:107-112 | in every run a target and the start of its scope begin only after each dependency has succeeded |
| EndToEnd.GroupRunsLast | internal/runner/execution_graph.go:204-242 | in every run a group's own vertex starts after everything its members need has succeeded |
| EndToEnd.StepsRunInTurn | internal/runner/execution_graph.go:145-202 | in every run a target first needed by a step starts after everything the step before needs has succeeded, when composites overlap the pipeline only as nested ones |
| EndToEnd.NestingIsExcluded | internal/runner/session.go:343-354 | the condition on the plan that mutual exclusion needs: no composite is a direct child of one with the same lock |
| EndToEnd.ScopesOutlastMembers | internal/runner/execution_graph.go:163-200 | where every pipeline ends after everything its steps need, every member that shares the lock finishes before its scope ends |
| EndToEnd.PlannedEndsLast | internal/runner/execution_graph.go:145-202 | what the plan must show for that: no steps, or gaps that are bridged in a lone pipeline, or new steps in a pipeline that others overlap only as nested ones |
| EndToEnd.LocksExclude | internal/runner/session.go:330-369 | where no composite is a direct child of one with its lock and every pipeline ends last, two targets under one lock work together only as members of one open composite that declares it, in every run |
| EndToEnd.PlannedLocksExclude | internal/runner/session.go:330-369 | the same from conditions on the plan alone |
| EndToEnd.RunEnds | internal/runner/scheduler.go:15-31 | whenever a run of a built plan has ended: no reservation, no lock beyond those of scopes being closed, nothing in flight, never the no-progress error, and on success every planned target has succeeded |
| EndToEnd.LeafLocksAlwaysProgress | internal/dag/dag.go:282-304 | if only leaf targets of the plan declare locks, no run waits with nothing running |
| ProjectLaws.NamedIsPlannedFirst | internal/runner/plan.go:177-208 | planned targets are those of the project, unchanged, and whatever one names as a dependency or child is planned earlier |
| ProjectLaws.PlannedOnlyIfNamed | internal/runner/plan.go:177-208 | planned is exactly what was requested or is named by something planned |
| ProjectLaws.DependenciesRunFirst | internal/runner/execution_graph.go:107-112 | in every run a target starts, and its scope opens, only after each target it depends on in the project has returned nil |
| ProjectLaws.MembersRunFirst | internal/runner/execution_graph.go:204-242 | a group of the project starts only after each of its members has returned nil |
| ProjectLaws.StepsRunFirst | internal/runner/execution_graph.go:145-202 | so does a pipeline with its steps where the plan shows that it ends last |
| ProjectLaws.SuccessRunsAll | internal/runner/scheduler.go:15-31 | where every child is a step or a member, a run that returns success has run every planned target to nil |
| ProjectLaws.WorkersWithinLimit | internal/dag/dag.go:266-273 | at no time do more callbacks run than the parallelism asked for |
| ProjectLaws.FailureStops | internal/runner/scheduler.go:57-59 | when a target's body fails, nothing that depends on it and no group it is a member of starts, and the run can only return an error |
| LonePipeline.OnlyPipelineIsAlone | internal/runner/plan.go:243-270 | with one pipeline of distinct steps as the only composite, no step is needed by an earlier one: plan order sees to it |
| LonePipeline.OnlyPipelineSequenceIff | internal/runner/execution_graph.go:180-188 | for plans: no sequence edge is dropped if and only if no completed step follows one that is not |
| LonePipeline.OnlyPipelineEndsLastIff | internal/runner/execution_graph.go:145-202 | for plans: the pipeline's vertex comes after everything its steps need if and only if every gap is bridged |
| LonePipeline.OnlyPipelineRunsLast | internal/runner/execution_graph.go:145-202 | and then in every run the pipeline's own vertex starts after everything its steps need has succeeded |
| LonePipeline.FirstRequestKeepsSequence | internal/runner/plan.go:177-208 | a pipeline whose steps no earlier request needs, unless its dependencies do, drops no sequence edge and ends last; the first request always qualifies |
| EarlyPipeline.PipelineStartsBeforeItsStep | internal/runner/execution_graph.go:180-200 | a project, its plan and a run in which the pipeline's vertex starts and one of its steps has not returned |
| EarlyPipeline.StepLosesItsLock | internal/runner/session.go:286-299 | with the pipeline's lock on that step too, a run in which the pipeline frees the lock while the step works under it |
| NestedPlans.InnerEndFreesOuter | internal/runner/session.go:286-299 | in every run of a plan, if the outer composite ends after everything its steps need and the inner one need not open before it, the step that ends a direct child with the same lock leaves the outer one open without the lock |
| NestedPlans.LocksHeldIff | internal/runner/session.go:265-299 | where every pipeline of a plan ends after everything its steps need and no nested composite has to open before its outer one, a run keeps the locks of all open scopes throughout if and only if no composite that is a direct child of one with its lock comes to its end |
| NestedPlans.LocksAlwaysHeldIff | internal/runner/session.go:265-299 | under the same two conditions, all runs keep the locks of all open scopes if and only if in no run such a child comes to its end |
| NestedRuns.ScopesKeepLocksIffNotNested | internal/runner/session.go:286-299 | where each direct child with the lock of its composite opens after it, waits for nothing that contends for locks, and the composite ends after everything its steps need: all open scopes hold their locks in all runs if and only if there is no such child |
| NestedRuns.NotNestedSoHeld | internal/runner/session.go:286-299 | in a plan without direct children that share the lock every open scope holds its lock in every run, with no further condition |
| NestedRuns.NestingLosesLock | internal/runner/session.go:286-299 | for one nested pair as above there is a run, with one worker, that leaves an open scope without its lock |
| NestedExample.ExclusionIsLost | internal/runner/session.go:286-299 | a project, its plan and a run that ends with two targets at work under one lock and no open scope that has both |
| NestedPlans.DeepInterlockedIff | internal/runner/session.go:343-354 | in a plan, let a composite be needed by a child of one with its lock but not by that one's dependencies, and let the outer one end after everything its steps need: the two are interlocked if and only if the inner one need not end before the other opens |
| NestedPlans.DeepBuriedIff | internal/runner/session.go:343-354 | under the same conditions, if the inner one is no direct child, it has to open inside the other without being its member if and only if it has to wait for its start |
| NestedPlans.DeepNestingNeverOpens | internal/runner/session.go:343-354 | ... and is then never started in any run, provided no composite of the plan is a direct child of one with its lock |
| NestedPlans.DeepNestingNeverSucceeds | internal/runner/session.go:343-354 | no run of a plan with such a pair succeeds, provided no composite is a direct child of one with its lock, the outer one ends after everything its steps need, and it is on top or the inner one need not end before it opens |
| DeepExample.DeepProjectNeverSucceeds | internal/runner/session.go:343-354 | a project with a group two levels inside one with its lock is planned and built, and none of its runs succeeds |
| Termination.LeafLockedPlansReturn | internal/dag/dag.go:282-304 | in a plan where only leaf targets declare locks, every run has a bounded length and stops only by returning |
| Waits.IdleWaitHasCircle | internal/dag/dag.go:282-304 | a run waits with nothing at work only if some composites may be open together and wait in a circle for each other's locks |
| Waits.UncircularRunsReturn | internal/dag/dag.go:282-304 | ... so where no composites can, a run that cannot go on has returned |
| Waits.InsideLockedPlansReturn | internal/dag/dag.go:282-304 | in a plan where whatever declares the lock of a composite joins its scope or is its child, every run has a bounded length and stops only by returning |
| Levels.SettledIffNoChain | internal/plan/graph.go:62-82 | settled within k rounds if and only if no chain of k + 1 documents ends there |
| Levels.NeverSettledIff | internal/plan/graph.go:86-98 | never settled if and only if behind a cycle |
| Levels.AllSettledIffAcyclic | internal/plan/graph.go:83-85 | everything is settled if and only if the relation is acyclic |
| Waves.ReleaseDependents | internal/plan/graph.go:69-75 | the finished document is struck from each dependent, and exactly those now without dependencies are added, in list order |
| Waves.RunWave | internal/plan/graph.go:64-82 | one wave processes its members, strikes them everywhere and yields exactly the documents they free, each as often as its last dependency occurs times how often it names that |
| Waves.ComputeWaves | internal/plan/graph.go:40-100 | total on every list; for distinct IDs wave k is exactly level k of the dependency relation, sorted, with every document as often as the last dependency it waited for is listed times how often it names that, and the rest is reported |
| Waves.BuildSelection | internal/plan/graph.go:5-38 | each diagnostic is there exactly when what it says is so; there is none if and only if IDs are distinct, dependencies selected and the relation acyclic |
| Waves.WaveIsLongestChain | internal/plan/graph.go:62-82 | a document is in wave k if and only if its longest chain of selected dependencies has k + 1 documents |
| Waves.InOneWave | internal/plan/graph.go:62-82 | no document is in two waves |
| Waves.InNoWaveIff | internal/plan/graph.go:83-99 | a document is in no wave if and only if it is on or behind a dependency cycle, and exactly those are reported |
| Waves.NoCycleReportedIff | internal/plan/graph.go:83-99 | cycle diagnostics are empty if and only if the relation is acyclic |
| Waves.DependencyInEarlierWave | internal/plan/graph.go:62-82 | every selected dependency is in an earlier wave |
| Waves.EveryWaveDistinctIff | internal/plan/graph.go:62-82 | no wave lists a document twice if and only if each document names once the greatest of its dependencies on the level before its own |
| Waves.NamedTwiceListedTwice | internal/plan/graph.go:69-75 | documents x and d, where d names x twice, give the waves [x] and [d, d] |
| Status.ValidateLedger | internal/plan/status.go:66-125 | reports exactly the problems the ledger has; none if and only if it is valid |
| Status.FromDependencies | internal/plan/status.go:45-57 | blocked if and only if some dependency is blocked, invalid or stale, else planned |
| Status.StatusOfOne | internal/plan/status.go:14-59 | the status that the ledgers imply for one Plan, by cases over its ledger and its dependencies |
| Status.DeriveStatuses | internal/plan/status.go:5-64 | one record per listed Plan in wave order, each with the status that the ledgers imply and exactly the problems of its ledger |
| Status.TaintShowsAtOnce | internal/plan/status.go:47-57 | looking at direct dependencies finds a stale or invalid ledger at the end of any chain of Plans without ledgers |
| Status.BlockedIff | internal/plan/status.go:5-64 | a Plan without a ledger is blocked if and only if a chain of such Plans leads to one whose ledger is stale or invalid |
| Status.ReadyIff | internal/plan/status.go:15-58 | ready if and only if it has no ledger and no dependencies |
| Status.LedgerDecides | internal/plan/status.go:16-44 | a Plan with a ledger is invalid if and only if the ledger lacks something it must hold; otherwise implemented or stale by its hash, or as the ledger says; and its record lists problems exactly when it is invalid |
| Status.RecordsDecide | internal/plan/status.go:45-58 | a Plan without a ledger is ready without dependencies, blocked if and only if the record of a dependency says blocked, invalid or stale, and planned otherwise |
| Status.ImplementedDependencyLeavesPlanned | internal/plan/status.go:45-57 | a Plan whose only dependency is implemented is planned |
| Status.WavesAreInOrder | internal/plan/status.go:12-13 | computed waves visit dependencies first |
| Batch.BatchState.ClassifyRecord | internal/planbatch/execute.go:224-262 | the result a Plan has before anything is run for it, with the order of the reasons |
| Batch.BatchState.ReadyPlans | internal/planbatch/execute.go:208-222 | for any wave, the Plans are classified one after another on all that is recorded by then; those that need a run are listed |
| Batch.JudgeIndependent | internal/planbatch/execute.go:208-222 | for Plans that do not depend on each other, classifying in place does not disturb the later ones: all are classified on what was known before |
| Batch.BatchState.Complete | internal/planbatch/execute.go:264-295 | the result that the outcome of Implement gives is recorded, nothing else changes |
| Batch.BatchState.Skip | internal/planbatch/execute.go:297-306 | the Plan is recorded as skipped |
| Batch.BatchState.WaveHadFailure | internal/planbatch/execute.go:308-318 | true if and only if a Plan of the wave failed |
| Batch.BatchState.WorkerMoves | internal/planbatch/execute.go:104-119 | any move of any worker keeps: results are those of the finished Plans, no Plan is lost or taken twice |
| Batch.BatchState.ExecuteWave | internal/planbatch/execute.go:81-129 | for every interleaving and number of workers each ready entry is called once and recorded with its own outcome; cancellation drops calls, it repeats none |
| Batch.BatchState.DoWave | internal/planbatch/execute.go:58-69 | for any wave, its results are those of classifying it and completing or skipping what is left; cut short, a part of what is left has been completed |
| Batch.BatchState.SortedResults | internal/planbatch/execute.go:355-367 | the recorded results in wave order |
| Batch.BatchState.FlushRemaining | internal/planbatch/execute.go:334-353 | every Plan in wave order, skipped if nothing was recorded |
| Batch.StageIsAfter | internal/planbatch/execute.go:50-74 | for waves of Plans that do not depend on each other and are in one wave only, the waves in turn give what each gives on its own |
| Batch.Execute | internal/planbatch/execute.go:15-79 | for any waves and every interleaving: the results of running the waves in turn, one call for each entry left to run, and, cut short, a list of every Plan with what is recorded for it; for a selection with distinct IDs also the results of the sequential specification, each Plan of a cut batch with the result it would have had or skipped, and one call per entry of a Plan that needs a run and none for any other |
| Batch.ParallelismDoesNotMatter | internal/planbatch/execute.go:99-102 | two uncancelled executions that differ in the parallelism return the same list of results and make the same calls |
| BatchLaws.FinalState | internal/planbatch/execute.go:224-295 | the state each Plan ends in: failed with errors; already implemented if up to date and not forced; blocked exactly if some dependency does not end implemented or already implemented; skipped after a failure in an earlier wave if the batch stops on failure; else as its run ends |
| BatchLaws.CallsIff | internal/planbatch/execute.go:50-74 | Implement is called, as often as the wave lists the Plan, exactly for a Plan without errors that is not up to date or is forced, whose dependencies all end implemented, and before which no wave failed if the batch stops on failure |
| BatchLaws.OnlySelectedCalled | internal/planbatch/execute.go:208-222 | nothing else is called |
| BatchLaws.ListInWaveOrder | internal/planbatch/execute.go:355-367 | the list has the Plans of the waves in their order |
| BatchLaws.CutAgreesWithWhole | internal/planbatch/execute.go:334-353 | a batch cut short lists every Plan, each as the whole batch would have it or as skipped |
| BatchLaws.CalledDependenciesDone | internal/planbatch/execute.go:244-262 | also in a batch cut short, when Implement is called for a Plan each dependency is listed as implemented, or is outside the batch with an implemented ledger |
| BatchLaws.SelectionIsForward | internal/planbatch/execute.go:50 | all of this holds for the waves of a selection with distinct IDs |
| Batch.OneAtATime | internal/planbatch/execute.go:50-74 | a wave has the results of running its Plans one after another |
| Batch.EveryPlanHasResult | internal/planbatch/execute.go:355-367 | every Plan of every wave ends with exactly one result |
| Batch.KnownIsFinal | internal/planbatch/execute.go:257-262 | a result known before a wave is the final one |
| Batch.CalledOnlyWhenReady | internal/planbatch/execute.go:224-262 | Implement is called only when every dependency ends as implemented or already implemented or, outside the batch, has an implemented ledger |
| Batch.SelectedPlansWait | internal/planbatch/execute.go:50-74 | for batches over a selection the same without further assumption |
| Batch.NoCallAfterFailure | internal/planbatch/execute.go:58-73 | under stop on failure nothing is called after a wave with a failure |
| Batch.SelectionIsWellFormed | internal/planbatch/execute.go:50 | the waves of a selection with distinct IDs meet the assumptions of Execute |
| Variables.ReadBlocks | internal/config/config_vars.go:22-32 | fails exactly on a duplicate name; otherwise every variable is empty and the defaults are collected |
| Variables.ReadGiven | internal/config/config_vars.go:33-54 | the given values: override, then upper-case environment name, then exact name |
| Variables.EvalIffRefs | internal/config/config_vars.go:61-64 | a template has a value if and only if all its references have one |
| Variables.ResolvedVariables | internal/config/config_vars.go:96-104 | the values of the resolved variables only |
| Variables.AllResolved | internal/config/config_vars.go:87-94 | true if and only if every default is resolved |
| Variables.Pass | internal/config/config_vars.go:56-74 | one pass in any order adds only derived values, and without progress nothing more can be derived |
| Variables.Iterate | internal/config/config_vars.go:55-83 | terminates; succeeds if and only if no default is hopeless, and then with a solution |
| Variables.ResolveVariables | internal/config/config_vars.go:11-85 | succeeds if and only if names are distinct, overrides declared, and no default that is not overridden reaches a cycle or a variable without a value; then each declared variable has the value of its override, else of the upper-case environment name, else of the exact one, else its default with every reference replaced in place, else nothing |
| Variables.ResolvableIff | internal/config/config_vars.go:55-83 | a variable gets a value if and only if it does not reach a cycle or a variable without one |
| Variables.SolutionIsUnique | internal/config/config_vars.go:57-74 | the values are determined: the iteration order cannot matter |
| Variables.ResolutionIsUnique | internal/config/config_vars.go:11-85 | two resolutions of the same inputs are equal |
| Variables.UpperCaseWins | internal/config/config_vars.go:35-42 | with both environment names set, the exact one takes effect if and only if the two agree |
| Variables.EmptyVariableCannotBeReferenced | internal/config/config_vars.go:57-83 | a default that refers to a declared variable without a value is rejected |
| Stream.SplitKeepsAll | internal/agentprovider/opencode_events.go:30-56 | cutting a stream at its newlines loses nothing |
| Stream.SplitFragment | internal/agentprovider/opencode_events.go:31-59 | a fragment extends the last line or completes it |
| Stream.TakeFragment | internal/agentprovider/opencode_events.go:32-54 | what one fragment does to raw file, line buffer and error flag; it fails exactly when a write is tried and refused |
| Stream.FinishLine | internal/agentprovider/opencode_events.go:88-102 | blank and overlong lines are skipped, others consumed, and the line buffer is reset |
| Stream.CaptureEvents | internal/agentprovider/opencode_events.go:14-73 | for every fragmentation the raw file is the first 10 MiB of the stream, and summary and verdict are those of the whole stream read line by line; after a read error the unfinished line is not read, and a refused write leaves what the fragments before it gave |
| Stream.CaptureAtEnd | internal/agentprovider/opencode_events.go:30-73 | at the end of the stream: each event of each line has been consumed once, in order; there is an error exactly if the stream or a line is too long or an event is at fault; the raw file is as much of the stream as fits |
| Stream.CaptureBroken | internal/agentprovider/opencode_events.go:55-70 | after a read error the same for the complete lines |
| Stream.TextMirror.MirrorText | internal/agentprovider/opencode_events.go:167-182 | however the text is cut into calls, the output is its first 1 MiB without control characters, and an error is reported exactly for text that no longer fits |
| Stream.TextMirror.MirrorCappedText | internal/agentprovider/opencode_events.go:184-195 | what still fits is mirrored and the count stays at the limit |
| Stream.SanitizeChar | internal/agentprovider/opencode_events.go:197-208 | a control character other than newline and tab is dropped, any other character kept |
| Stream.PrefixWriter.Write | internal/runner/console.go:103-130 | nothing is lost or reordered; whole lines come first, then pieces of exactly the limit cut from the unfinished line as long as something remains; the buffer is free of newlines and within the limit |
| Stream.PrefixWriter.Flush | internal/runner/console.go:132-144 | the unfinished line is handed over as it is, if there is one |

## Left out

- Cancellation, the walk's context and its causes: one abstract event that may happen in any state.
- Target handlers, commands, timeouts, git, agent processes, logs and run records: a vertex body returns ok or an error.
- `dag.Walk` as goroutines and channels: modelled as a step relation over all interleavings, not as a method.
- `runTargets`, `Less`, `sortReady` and the order map: the ready list has an arbitrary order, so scheduling priority is not modelled. What is said of all runs holds for every priority.
- NestedRuns.ScopesKeepLocksIffNotNested: the run that loses a lock has one worker and an order of the ready list of its own choosing; where nested composites contend for locks, open before their outer one, or the outer one ends early, which of them costs a lock is left to `NestedPlans.LocksAlwaysHeldIff` and `NestedPlans.InnerEndFreesOuter`. The runs of `EarlyPipeline` and `NestedExample` depend on no choice of order: at each point of them whatever is ready and can start does start.
- Vertex names: targets, scope starts and barriers are constructors of one datatype, so their names cannot collide; the stored node kinds follow from the constructor.
- The depth of scopes and the builder's stack: they only feed priorities and contexts that nothing here depends on.
- Dependency edges for display, tools, preflights and fingerprints of a plan: field-by-field members.
- ExecutionGraph.Builder.AddClosure: after an error the method says nothing about the half-built graph, which the caller discards.
- EndToEnd.EveryTargetBuilt: needs that every child is a pipeline step or a group member; a child of any other kind is planned but not built, in the code as in the model.
- EndToEnd.LocksExclude: for plans with pipelines it needs that each ends after all its steps; without that the lock can be lost (`EarlyPipeline.StepLosesItsLock`).
- EndToEnd.PlannedLocksExclude: the condition on the plan is exact for a lone pipeline and sufficient for pipelines that other composites overlap.
- NestedPlans.LocksHeldIff: needs that every pipeline ends after everything its steps need and that no nested composite has to open before its outer one; the same goes for NestedPlans.LocksAlwaysHeldIff.
- NestedPlans.InnerEndFreesOuter: needs both for the one pair.
- NestedPlans.DeepNestingNeverSucceeds: needs that no composite of the plan is a direct child of one with its lock, that the outer composite ends after everything its steps need, and that the inner one need not end before the outer one opens, as is so for an outer composite on top. With direct nesting a lock may be freed early, and such a run may succeed.
- NestedPlans.DeepNestingNeverOpens: needs the first two of these, and that the inner composite waits for the start of the outer one.
- Waits.InsideLockedPlansReturn: a sufficient condition on the plan; `Waits.UncircularRunsReturn` is the more general one, on the graph. Whether composites that may wait in a circle come to do so in some run is not modelled.
- Batch.Execute: that results are final and calls wait for dependencies is said of jobs in which no Plan is in two waves or depends on one of its own wave, as for a selection with distinct IDs; the reasons, ledgers and times stored beside a state are left out, and the outcome of Implement is a function of the Plan.
- Loading of statuses and external ledgers, the default of StopOn, and the error for an empty list of paths.
- Texts, files and severities of diagnostics, and the copy of the ledger kept in a status record.
- Hash strings, schema versions and timestamps of ledgers: flags and numbers that say whether the check on them passes.
- HCL parsing and expressions: a default is a template of text and references, or an expression that is not a string; function calls are text.
- Reading the environment: two maps, the exact names and the upper-case names.
- Event parsing: one abstract function from summary and line to summary and verdict; the identity of the first error is not modelled, only whether there is one.
- Errors of file creation, what a refused write leaves in the file, and the texts of errors.
- Stream.TextMirror.MirrorText: characters stand for bytes, so a multi-byte character cut at the limit is not modelled.
- Console labels, timestamps and formatting.
- The Factory queue and daemon, storage, JSON-RPC, policies, coverage parsers, environment blocks and the command line.
