# Enju in Dafny

Enju coordinates workflows that people and agents work on together. This project
models the parts of it whose correctness is not visible from one function, and
proves what they promise over all inputs, all choices and all runs.

- `Graphs.dfy`, `Dag.dfy`: the task graph, its incremental cycle check, its sort and
  the scheduling query. A range over a Go map is a choice among all orders.
- `RunModel.dfy`, `Wiring.dfy`, `RunBuilder.dfy`, `RunLevel.dfy`: the expansion of
  `for_each` tasks into instances and the wiring of their dependencies. `RunGraph.dfy`
  says over the task definitions alone what the graph of a run is and when there is one.
- `EventTail.dfy`, `Supervisor.dfy`, `AgentLifecycle.dfy`, `AgentHistory.dfy`,
  `ProjectWatch.dfy`, `AutoRunManager.dfy`: the tailer of a project's event file, the
  reference counts that keep agents alive, whole runs of both from any pid files an
  earlier session left, what is known of an agent in terms of the steps since its start,
  and the start and rollback of the agents of one run.
- `Daemon.dfy`, `DaemonPolicy.dfy`, `DaemonHistory.dfy`: the agent daemon, with the
  coordinator's replies as inputs, what its counters guarantee, and what they tell of the
  replies so far.
- `Text.dfy`, `SlashPath.dfy`, `Places.dfy`: strings in Go's byte order, searching,
  splitting, trimming, slash-separated paths, and the order of places in a tree of lists.
- `ManagedBlock.dfy`, `GitignoreUpdate.dfy`, `Include.dfy`, `IncludeScope.dfy`,
  `Flattening.dfy`, `ArgTemplate.dfy`, `CommaSplit.dfy`, `ArtifactExpansion.dfy`: text and
  tree transformations that must undo or agree with each other.

Where the code works step by step, a method with the code's own branches and loops is
proved against a specification function or an independent property, and the results
over many calls are lemmas about the specification. What an operation gives is also
stated without these functions: over the task definitions, the steps, the replies, the
paths of the tree, the characters of a text, with the code's own names and numbers
written out. `dafny verify dfyconfig.toml` checks everything.

## Where code and comments disagree

The model follows the code. Each of these is a lemma below.

- A dependency of a per-iteration task on an aggregator is documented as an edge to the
  aggregator's bare id (internal/common/yaml/build.go:176-180). The edge is attempted
  before the aggregator's node exists, so such a run with an iteration never builds.
- A begin marker without an end marker is called harmless
  (internal/common/gitignore/managed_block.go:170-173). Two updates of such a file give
  other bytes than one, because the second begin marker becomes an entry.
- The text around a block is called byte-for-byte faithful
  (internal/common/gitignore/managed_block.go:158-160). An update rewrites it to exactly
  one blank line on either side, also at the end of a file that had no block.
- The tailer's new offset is documented as the end of the file
  (internal/bots/auto_stop.go:178-181). It differs from it by dropped carriage returns
  and a missing last line end; the latter makes the next poll dispatch the file again.
- Reconciliation is meant to release agents whose runs ended while the supervisor was
  down (internal/bots/auto_stop.go:252-257). The references go, but an agent of an
  earlier session is not tracked, so `Stop` refuses and it keeps running.
- Watching begins at the end of the event file because automatic runs are in the future
  (internal/bots/auto_stop.go:139-144). A run is recorded on its agents after it was
  created and before its project is watched (internal/bots/auto_run_manager.go:185-196).
  An end that is logged in between is never seen. When the tailer is running already, as
  for every automatic run of a project after the first, an end that it reads before the
  run is recorded releases nothing, and the reference recorded then stays.
- Rollback is meant to undo Preflight (internal/bots/auto_run_manager.go:138-146). An
  agent whose pid file survived a restart is started afresh over it, and its pid file is
  gone after the rollback.
- Reporting a contract miss is documented as never leading to a terminal failure
  (internal/bots/daemon.go:695-701). Three failed reports do.
- A claimable task is meant never to starve behind tasks that cannot be claimed
  (internal/bots/daemon.go:250-257). With 1024 or more of these the counter map is
  dropped before all of them are skipped.
- The test that an include stays in the workflow's directory
  (internal/common/yaml/include.go:349-354) refuses everything for the root directory
  and accepts paths outside a directory such as `..`. It runs before backslashes become
  slashes, so with one it accepts a path whose normal form lies outside.
- Singletons are said to live under the empty iteration key
  (internal/common/yaml/build.go:460-463). A for_each value whose slug is empty
  has that key too; its instance is then replaced there and keeps a node without parents.
- The client's expansion and the coordinator's matching are documented as symmetric
  (internal/common/yaml/expand.go:64-70). The client cleans what it expands and the
  coordinator matches the declared text, so a directory or a glob that is not in normal
  form breaks this: for `./src/*.go` the client submits `src/a.go`, which `./src/*.go`
  does not match. So does a declared directory that is a link to a directory.

## Model

| member | source | states |
|---|---|---|
| Graphs.InsertKeepsAcyclicIff | internal/common/dag/dag.go:66-70 | in an acyclic graph a new edge closes a cycle if and only if its target already reaches its source: the incremental check neither misses a cycle nor refuses a harmless edge |
| Graphs.InsertAllIsUnion | internal/common/dag/dag.go:55-75 | adding any list of edges in order accepts all of them if and only if the union graph is acyclic, and leaves the union |
| Graphs.InsertionOrderIsIrrelevant | internal/common/dag/dag.go:55-75 | two lists with the same edges, in any order and with any repetitions, are both accepted or both refused and leave the same graph |
| Graphs.SomeNodeIsReady | internal/common/dag/dag.go:226-251 | while any node is not completed, some node is ready |
| Graphs.CompletingReadyKeepsParentClosed | internal/common/dag/dag.go:226-251 | completing a ready node keeps the completed set closed under parents |
| Graphs.ReadyNodesAreIndependent | internal/common/dag/dag.go:226-251 | under a parent-closed completed set no ready node reaches another one |
| Graphs.ReadyNodesMayDependOtherwise | internal/common/dag/dag.go:226-251 | a graph and a completed set that is not parent-closed for which two ready nodes depend on one another |
| Graphs.ReadyRunsAreTopologicalOrders | internal/common/dag/dag.go:226-251 | the sequences obtained by completing one ready node after another until all are completed are exactly the topological orders |
| Graphs.ReadyRunDrains | internal/common/dag/dag.go:226-251 | every run of the scheduler, whatever it chose, extends to one that completes all nodes |
| Graphs.TopologicalImpliesAcyclic | internal/common/dag/dag.go:219-223 | a graph with a topological order has no cycle |
| Dags.Dag.constructor | internal/common/dag/dag.go:26-32 | a new graph is empty |
| Dags.Dag.AddNode | internal/common/dag/dag.go:35-51 | adds a node without edges, or refuses an id that is taken and changes nothing; the indexes stay mirrored and the graph acyclic |
| Dags.Dag.AddEdge | internal/common/dag/dag.go:55-75 | names the missing end point, else accepts exactly if the graph with the edge is acyclic; a refused edge changes nothing |
| Dags.Dag.CanReach | internal/common/dag/dag.go:285-307 | true exactly if a path of edges leads from source to target |
| Dags.Dag.Roots | internal/common/dag/dag.go:86-97 | exactly the nodes that are ready before anything is completed, once each |
| Dags.Dag.Descendants | internal/common/dag/dag.go:139-160 | exactly the nodes that a path of at least one edge leads to, once each |
| Dags.Dag.Ancestors | internal/common/dag/dag.go:163-184 | exactly the nodes from which a path of at least one edge leads here, once each |
| Dags.Dag.TopologicalSort | internal/common/dag/dag.go:188-224 | succeeds exactly if the graph is acyclic, and then gives every node once with all parents before their children, for every order in which maps are ranged over |
| Dags.Dag.ReadyNodes | internal/common/dag/dag.go:228-251 | exactly the nodes that are not completed and whose parents all are, once each |
| Dags.Dag.Validate | internal/common/dag/dag.go:261-282 | passes exactly if the graph is acyclic |
| RunModel.DeferredTasks | internal/common/yaml/build.go:402-433 | the loop ends with a set closed under dependents that holds exactly the tasks reachable from a for_each task |
| RunModel.ClosedHoldsDependents | internal/common/yaml/build.go:410-432 | every set that holds the for_each tasks and is closed under dependents holds the deferred ones: the deferred set is the least |
| RunModel.CollectDeferred | internal/common/yaml/build.go:43-73 | one record per deferred task in task order, marked transitive unless its own for_each is dynamic, and then with exactly the references of its variables that parse, for every order in which the map is ranged over |
| RunModel.DeferredDefsMean | internal/common/yaml/build.go:43-73 | for any set of tasks: one record for each in task order, marked transitive exactly if no variable of its own for_each is still to come, and with exactly the references of these variables that parse |
| RunModel.ParseForEachRefIff | internal/common/yaml/foreach.go:281-292 | a text parses to a reference exactly if, trimmed, it is two parts with a dot in double braces, trimmed inside, neither part empty and no dot in the first |
| Wiring.AddEdges | internal/common/yaml/build.go:613-617 | adding the edges of one instance succeeds exactly if the graph stays acyclic, whatever the order of the parents |
| Wiring.WritersByPath | internal/common/yaml/build.go:673-685 | the index holds exactly the instances that write each path |
| Wiring.WireArtifactDeps | internal/common/yaml/build.go:672-723 | succeeds exactly if the graph together with every writer-to-reader edge is acyclic; then those edges are added and listed, for every visiting order |
| Wiring.SourcesAreArtifactParents | internal/common/yaml/build.go:704-711 | the writers found for the paths an instance reads, without itself, are exactly its file-derived parents |
| RunBuilder.ResolveDeps | internal/common/yaml/build.go:574-612 | refuses undeclared dependencies and missing upstream iterations, else lists what each dependency stands for, front to back, a fan-in in ascending key order |
| RunBuilder.RecordsResolve | internal/common/yaml/build.go:588-594 | with every iteration recorded the lookup never misses an upstream and gives the intended instances |
| RunBuilder.DependencyInstancesExist | internal/common/yaml/build.go:523-558 | no materialised instance has a deferred dependency, and all instances that its dependencies stand for exist, for any iteration keys |
| RunBuilder.Materialise | internal/common/yaml/build.go:523-561 | creates every instance and its node and fails exactly if two instances would get the same id; the singletons, if there are any, replace what is filed under the empty key |
| RunBuilder.AllFiledIff | internal/common/yaml/build.go:535-561 | every instance is filed exactly if no iteration has the empty key, or there are no singletons, or no expanded tasks |
| RunBuilder.UnfiledHasNoParents | internal/common/yaml/build.go:559-561 | an instance that is not filed has a node without parents, whatever it depends on |
| RunBuilder.WireDeclared | internal/common/yaml/build.go:623-631 | wires the declared dependencies of all filed instances; success and result do not depend on the order of the map range |
| RunBuilder.IntendedParents | internal/common/yaml/build.go:563-618 | the parents of an instance are what its declared dependencies stand for and every other instance that writes a path it reads |
| RunBuilder.BuildTaskLevel | internal/common/yaml/build.go:379-642 | over the definitions: succeeds exactly if no two instances have one id, dependencies of filed instances name tasks and no path of edges closes; then there is a node `key:id`, or `id` for the empty key, per instance, every filed one stands under its key with its own read and written paths and lists exactly its parents, namely the instances its dependencies stand for and every other filed instance that writes a path it reads, the edges are exactly these, and the tasks that wait have a record each |
| RunBuilder.TaskLevelBuildsIff | internal/common/yaml/build.go:379-642 | the condition under which the builder succeeds is the one over the definitions: ids, names, and no path of edges that closes |
| RunBuilder.TaskLevelGraph | internal/common/yaml/build.go:563-618 | the graph that the builder specifies is the one over the definitions: nodes, edges, places, paths and parents |
| RunLevelBuilder.BuildRunLevel | internal/common/yaml/build.go:108-365 | the same over the definitions for run-level expansion: aggregators have one instance, all other tasks one per iteration; in addition no other task depends on an aggregator where there is an iteration, and an aggregator depends only on aggregators listed up to it |
| RunLevelBuilder.RunLevelBuildsIff | internal/common/yaml/build.go:108-365 | the condition of the run-level builder is the one over the definitions |
| RunLevelBuilder.RunLevelGraph | internal/common/yaml/build.go:153-365 | the graph of the run-level builder is the one over the definitions |
| RunLevelBuilder.FitsIffInOrder | internal/common/yaml/build.go:279-349 | an aggregator finds its dependencies exactly if they are declared and no aggregator it depends on is listed after it |
| RunLevelBuilder.DependingOnAnAggregatorFails | internal/common/yaml/build.go:176-187 | a per-iteration task that depends on an aggregator makes every build with an iteration fail |
| RunLevelBuilder.Build | internal/common/yaml/build.go:90-104 | the mode is per task exactly if some task has its own for_each; success, graph and records are those of that mode, over the definitions |
| ManagedBlock.EnjuMarkersAreProper | internal/common/gitignore/managed_block.go:36-37 | the two marker lines have what the other results require of markers |
| GitignoreUpdate.SplitGitignore | internal/common/gitignore/managed_block.go:161-202 | for any contents: the text up to the first begin marker without newlines at its end, the lines of the body of the block that are not blank, trimmed and in order, and the text behind the first end marker behind it without newlines in front; without these two markers everything is the first text |
| GitignoreUpdate.UpdateManagedBlock | internal/common/gitignore/managed_block.go:60-142 | returns nothing exactly if no path is given that is not empty and not both markers occur, or both occur and all are listed; else the text before, a blank line, the begin marker, all paths once in byte order each on its line, the end marker, a blank line and the text behind, with the two markers written out |
| GitignoreUpdate.UpdateMeans | internal/common/gitignore/managed_block.go:60-142 | for any markers, file and paths: the specified update is nothing or that file |
| GitignoreUpdate.SplitMeans | internal/common/gitignore/managed_block.go:161-202 | for any markers and file: the specified split is those parts |
| Text.LessIff | internal/common/gitignore/managed_block.go:110 | one string is less than another exactly if at the first place where they differ it has the smaller character, or ends |
| ManagedBlock.EntriesAreSafe | internal/common/gitignore/managed_block.go:186-198 | whatever the file, every path read from a block is trimmed, on one line and without the end marker |
| ManagedBlock.SplitUndoesRender | internal/common/gitignore/managed_block.go:112-141 | splitting a rendered block gives back the text before it, the paths and the text after it |
| ManagedBlock.UpdatesMerge | internal/common/gitignore/managed_block.go:60-142 | for a well-formed file and safe paths, updating twice gives the same bytes as one update with all the paths |
| ManagedBlock.UpdatesAreOneUpdate | internal/common/gitignore/managed_block.go:60-142 | any list of updates amounts to one update with the union of the paths, and the text before and after the block survives it |
| ManagedBlock.UpdatesMergeIffWellFormed | internal/common/gitignore/managed_block.go:169-176 | updates merge for all safe paths exactly if a begin marker, where there is one, is followed by an end marker |
| ManagedBlock.RepeatedUpdateIsIdle | internal/common/gitignore/managed_block.go:94-104 | repeating an update reports no change exactly if all its non-empty paths are safe, for any file |
| ManagedBlock.SplitOfMalformedUpdate | internal/common/gitignore/managed_block.go:168-175 | after an update of a file without an end marker the new begin marker has become an entry of the block |
| ManagedBlock.TextAroundIsKeptIff | internal/common/gitignore/managed_block.go:112-141 | an update that writes keeps the text before the block byte for byte exactly if there is none or it ends in one blank line, and the text behind it exactly if there is none or it starts with one |
| ManagedBlock.TextBeforeIsChanged | internal/common/gitignore/managed_block.go:158-160 | a block directly below a line of text: every update changes the text before it |
| ManagedBlock.NewBlockKeepsFileIff | internal/common/gitignore/managed_block.go:112-141 | an update of a file without a block puts the new one behind the file, and keeps the file byte for byte exactly if it is empty or ends in one blank line |
| EventTail.OffsetAfterScan | internal/bots/auto_stop.go:206-234 | where a scan leaves the offset: short of the end by one per dropped carriage return, one beyond it after an unterminated last line |
| EventTail.PollReachesEndIff | internal/bots/auto_stop.go:206-234 | the offset is the end of the file exactly if as many carriage returns were dropped as line ends are missing |
| EventTail.UnterminatedFileIsReadAgain | internal/bots/auto_stop.go:197-202 | after a last line without a line end the next poll reads the whole file once more |
| EventTail.OverlongLineStalls | internal/bots/auto_stop.go:206-233 | a line that does not fit the buffer is never passed, whatever is appended |
| EventTail.NoNewlineBefore | internal/bots/auto_stop.go:212-214 | a token ends at the first line end |
| EventTail.ScanOfLines | internal/bots/auto_stop.go:206-234 | whole lines are read back as they are and the offset moves to the end of the file |
| EventTail.DispatchedExactlyOnce | internal/bots/auto_stop.go:120-235 | over any interleaving of appended clean lines and polls, the dispatched runs are exactly those of the lines read since watching began, once each and in order; after a poll these are all |
| EventTail.RunsAreReported | internal/bots/auto_stop.go:56-60 | the runs that lines report are one for each line that decodes to run_completed, run_failed or run_terminated with a run number that is not 0, in order |
| EventTail.ScanReads | internal/bots/auto_stop.go:206-234 | a scan reads line after line up to line ends, each without a carriage return at its end, until the end of the file or a line of 1048576 bytes or more; the offset grows by the length of each line read and one |
| EventTail.PollReads | internal/bots/auto_stop.go:190-205 | a poll scans from the offset, or from the start of a file that is shorter, and leaves the offset where there is no file |
| Supervisors.Supervisor.StartAgent | internal/bots/supervisor.go:403-524 | answers that the agent runs already, with its pid, exactly if it is tracked and the start is complete, and then changes nothing; starts afresh exactly if it is tracked only afterwards, with the starter that the caller names, or "operator", and no references |
| Supervisors.Supervisor.MarkAutoRun | internal/bots/supervisor.go:873-886 | appends the run unless it is listed, and fails exactly if there is no pid file |
| Supervisors.Supervisor.UnmarkAutoRun | internal/bots/supervisor.go:893-917 | removes the run and keeps the order of the others; does nothing without a pid file |
| Supervisors.Supervisor.StopAgent | internal/bots/supervisor.go:546-558 | asks a tracked daemon to stop, and fails exactly if there is none |
| Supervisors.Supervisor.ReapOnExit | internal/bots/supervisor.go:694-739 | drops the daemon and its pid file and records the classified exit |
| Supervisors.Supervisor.OnRunTerminal | internal/bots/auto_stop.go:334-373 | releases the run for all agents of the project at once, whatever the order of the pid files |
| Supervisors.Supervisor.ReconcileAll | internal/bots/auto_stop.go:269-325 | releases exactly the references answered to be terminal, for all agents at once |
| Supervisors.Supervisor.WatchProjectEvents | internal/bots/auto_stop.go:120-152 | starts at the present end of the file; a second call for the same directory changes nothing |
| Supervisors.Supervisor.ConsumeEventTail | internal/bots/auto_stop.go:184-235 | the new offset is that of the poll, and the state is that after the end of every run among the lines read, in order |
| Supervisors.Supervisor.PollProject | internal/bots/auto_stop.go:159-176 | one poll moves the offset of the watched project and handles its events |
| Supervisors.WithoutFacts | internal/bots/supervisor.go:904-911 | removing runs leaves exactly the others, without repetitions if there were none |
| AgentLifecycle.ReachedIsConsistent | internal/bots/supervisor.go:214-270 | in every run, whatever pid files the session found, every daemon has its pid file, no run is listed twice, the ring of exits is bounded, and a pid file without a daemon is one that was found |
| AgentLifecycle.RefsAreLiveMarks | internal/bots/supervisor.go:873-917 | in every run, from any state, the references of an agent are exactly those that were there or were marked and have not been cleared since by their end, an unmark, a reconciliation, an exit or a new start |
| AgentLifecycle.RunEndStopsExactly | internal/bots/auto_stop.go:334-373 | in every state the end of a run takes the reference from all agents of the project and asks exactly those to stop whose only reference it was, that an automatic run started, and that the supervisor tracks |
| AgentLifecycle.ReconcileStopsExactly | internal/bots/auto_stop.go:269-325 | in every state exactly the references answered to be terminal go, failed lookups keep theirs, and exactly those agents are asked to stop that lose all references, that an automatic run started, and that the supervisor tracks |
| AgentLifecycle.ReconcileAfterRestartStopsNobody | internal/bots/auto_stop.go:252-257 | after a restart reconciliation asks nobody to stop; an agent whose runs have all ended is left eligible with its process running |
| AgentLifecycle.SurvivorsNeedAStart | internal/bots/supervisor.go:546-552 | an agent of an earlier session is asked to stop only after it was started again |
| AgentLifecycle.OperatorsAgentsAreLeftAlone | internal/bots/supervisor.go:305-315 | in every run a daemon that was asked to stop has "auto_run" recorded as its starter, or the operator asked it |
| AgentLifecycle.StartIsIdempotent | internal/bots/supervisor.go:378-417 | until its daemon exits, no step changes the pid, the starter or the project of an agent, and starting it again changes nothing |
| AgentLifecycle.RingHoldsLatestExits | internal/bots/supervisor.go:712-721 | the ring holds the latest exits of the run, at most sixteen, in order |
| AgentLifecycle.ExitReasonTells | internal/bots/supervisor.go:694-712 | the reason of an exit tells killed, graceful and failed daemons apart, whatever the error text |
| AgentLifecycle.KilledWasAsked | internal/bots/supervisor.go:581-593 | in every run only a daemon that had been asked to stop exits as killed |
| AgentHistory.OthersAreLeftAlone | internal/bots/supervisor.go:403-524 | a step that concerns one agent leaves all others and their pid files as they are; the end of a run and a reconciliation change references and requests to stop only |
| AgentHistory.TrackedIff | internal/bots/supervisor.go:403-524 | in every run a daemon is tracked exactly if some complete start spawned it while it was not, and none of the steps since was its exit |
| AgentHistory.LatestStartIsRecorded | internal/bots/supervisor.go:498-511 | in every run the pid file of a tracked agent says what its latest start said: its name, pid, project, and as its starter the text that the start gave, or "operator" where it gave none |
| AgentHistory.RefsAreMarks | internal/bots/supervisor.go:873-917 | in every run the references of a tracked agent are exactly the runs marked since its start that no unmark, no end of the run in its project and no reconciliation took since |
| AgentHistory.AskedIff | internal/bots/auto_stop.go:334-373 | in every run a daemon has been asked to stop exactly if some step since its start was the operator's request, or was the end of a run or a reconciliation that took all the references there were, and the start was by "auto_run" |
| AgentHistory.OperatorsAgentsAreLeftAlone | internal/bots/supervisor.go:305-315 | in every run an agent whose latest start names "operator", or nobody, has been asked to stop exactly if a step since was the operator's own request |
| AgentHistory.KilledIff | internal/bots/supervisor.go:581-593 | in every run a daemon has been killed exactly if a timeout ran out after it had been asked to stop |
| AgentHistory.ExitIsRemembered | internal/bots/supervisor.go:694-739 | in every run an exit takes the daemon and its pid file and nothing else, and is put behind the latest fifteen exits with its name, its pid, and "hard-killed", "graceful" or "crashed: " and the error as its reason |
| AgentHistory.OtherStepsKeepExits | internal/bots/supervisor.go:694-721 | no step but the exit of a tracked daemon changes the recent exits |
| ProjectWatch.NoReferenceOutlivesItsRun | internal/bots/auto_stop.go:164-230 | from any state and file, and however events interleave: if an agent of the project is kept alive by a run whose end was dispatched, or after a poll by one whose end was logged since watching began, then the run was marked for it after its end had been dispatched |
| ProjectWatch.RefIsReleasedIff | internal/bots/auto_stop.go:120-152 | from any state and file, a reference that an agent has at some point, and which nothing else clears, is gone after a poll exactly if the end of the run was logged, since watching began, behind what had been dispatched by that point; if its end had not been dispatched by then, exactly if it was logged at all |
| ProjectWatch.MarkStaysUntilNextEnd | internal/bots/auto_run_manager.go:190-195 | whenever a run is marked for an agent, the reference stays, if nothing else clears it, exactly until an end of the run is dispatched after the mark |
| ProjectWatch.EndBeforeMarkIsMissed | internal/bots/auto_run_manager.go:185-196 | with a running tailer that has read the end of a run, marking the run then leaves a reference that the next poll does not release |
| ProjectWatch.FirstPollReleasesNothing | internal/bots/auto_stop.go:139-149 | the first poll releases nothing that was logged before watching began |
| ProjectWatch.EndBeforeWatchingIsMissed | internal/bots/auto_run_manager.go:190-196 | a run is marked before its project is watched; if its end is logged in between, the reference stays |
| ProjectWatch.RefAfterTerminalAll | internal/bots/auto_stop.go:212-230 | handling the ends of runs takes exactly these references from the agents of the project |
| ProjectWatch.TerminalAllIsSteps | internal/bots/auto_stop.go:212-230 | handling the ends of runs is one step of the supervisor for each, in order |
| AutoRunManagers.AutoRunManager.Preflight | internal/bots/auto_run_manager.go:108-136 | succeeds exactly if every agent is running or can be started, and becomes ready; starts exactly the agents in front of the first failure that were not running, for the project, and remembers them behind those of earlier calls |
| AutoRunManagers.AutoRunManager.Rollback | internal/bots/auto_run_manager.go:147-154 | stops exactly the remembered daemons, removes their pid files, keeps those of agents without a daemon, and forgets the list |
| AutoRunManagers.StopEachRemoves | internal/bots/auto_run_manager.go:147-154 | stopping agents in turn removes their daemons and the pid files of these, and no others |
| AutoRunManagers.AutoRunManager.PreflightThenRollback | internal/bots/auto_run_manager.go:102-154 | after Preflight, complete or failed part-way, Rollback leaves the daemons from before, without those of earlier calls; the pid files from before are all there exactly if no agent was started over one that had survived; a second Rollback changes nothing |
| AutoRunManagers.AutoRunManager.HookRunSeq | internal/bots/auto_run_manager.go:185-198 | the run is then listed for exactly the agents brought up that have a pid file, nothing else of them changes, exactly the others are reported in order, and the project is watched from the present end of its file |
| AutoRunManagers.MarkEachFacts | internal/bots/auto_run_manager.go:190-195 | marking adds the run to the given agents and changes nothing else |
| Daemons.Daemon.FindWork | internal/bots/daemon.go:753-839 | the first task in list order that may be claimed and was not refused too often, over all lists that could be fetched |
| Daemons.Daemon.RunOnce | internal/bots/daemon.go:502-651 | one iteration gives the counters, the task, whether the work was run, what FailTask was called with and the outcome as specified, for every reply; what these are is told by the lemmas of DaemonHistory |
| Daemons.Daemon.Run | internal/bots/daemon.go:433-484 | the pauses follow the outcomes, and the loop ends at the first error that no retry can mend |
| Daemons.PauseIsCappedDoubling | internal/bots/daemon.go:461-482 | after n iterations that were not clean the pause is the floor doubled n times, cut off at the maximum from the first doubling on |
| DaemonPolicy.CountersAreBounded | internal/bots/daemon.go:282-294 | for every sequence of replies both maps hold at most 1024 tasks, no streak exceeds 3, and reasons are kept only for tasks with a streak |
| DaemonPolicy.RefusingTasksAreTriedInTurn | internal/bots/daemon.go:569-588 | fewer than 1024 tasks that always refuse are tried one after the other, three times each |
| DaemonPolicy.TooManyRefusingTasksStarve | internal/bots/daemon.go:569-572 | with 1024 or more of them the counters never skip all |
| DaemonPolicy.ClaimableTaskIsPickedIff | internal/bots/daemon.go:804-834 | behind k refusing tasks a claimable one is picked after exactly 3k failed iterations if k is below 1024, and otherwise never |
| DaemonPolicy.StreakCountsWork | internal/bots/daemon.go:602-645 | between two clearings, and without a wholesale reset, the streak counts how often the work was run, at most three times |
| DaemonPolicy.ExhaustedTaskIsOnlyFailed | internal/bots/daemon.go:596-604 | once the streak is exhausted the work is not run again; claiming the task calls FailTask with the recorded reason |
| DaemonPolicy.ExhaustedStreakStays | internal/bots/daemon.go:658-673 | the exhausted streak stays until FailTask succeeds |
| DaemonPolicy.FailTaskIff | internal/bots/daemon.go:602-638 | FailTask is called exactly for a claimed task whose streak is exhausted or whose work fails for the last time allowed |
| DaemonPolicy.MissingTaskIsFailedIff | internal/bots/daemon.go:695-712 | a task whose only failures are contract misses is sent to FailTask exactly if three reports of its misses failed since its streak was clear |
| DaemonPolicy.MissingTaskIsFailed | internal/bots/daemon.go:702-712 | such runs exist: three misses whose reports fail, and the next claim calls FailTask |
| DaemonPolicy.ReportedMissesNeverFailTask | internal/bots/daemon.go:683-694 | if every report succeeds such a task is never sent to FailTask, however long the run |
| DaemonHistory.TriedIff | internal/bots/daemon.go:753-839 | the task tried is the first one in list order that is open to the agent and of which fewer than three claims are counted as refused |
| DaemonHistory.RefusalsAreCounted | internal/bots/daemon.go:550-588 | over whole runs, from where the count of a task starts over: it is the number of iterations that tried the task and were refused; lost races, empty and failed listings and other tasks do not count; it starts over when the task is claimed, and when a claim is refused with 1024 tasks counted |
| DaemonHistory.FailuresAreCounted | internal/bots/daemon.go:602-712 | over whole runs the streak of a task is the number of iterations in which its work failed, or a miss of its contract could not be reported, since it was last settled or all counts were dropped |
| DaemonHistory.ActiveIff | internal/bots/daemon.go:589-651 | over whole runs the claim that is held is that of the last iteration that claimed a task, unless that iteration settled it |
| DaemonHistory.ReasonAfter | internal/bots/daemon.go:602-673 | the third failure of the work records its message, which stays until the task is settled or all counts are dropped |
| DaemonHistory.IterationTells | internal/bots/daemon.go:502-673 | the task of an iteration, whether its work is run, exactly when and with which reason FailTask is called, and which error the loop is told |
| DaemonHistory.NothingTriedTells | internal/bots/daemon.go:502-545 | where no task can be tried the counters stay, and the loop is told of nothing but a failed listing |
| DaemonHistory.PauseAfter | internal/bots/daemon.go:461-482 | after each iteration there is a pause exactly if it ended badly: the floor, doubled for each bad one directly before it, and cut off at the maximum |
| SlashPath.ParseUndoesShow | internal/common/yaml/include.go:178 | a cleaned path is read back as it was |
| SlashPath.CleanIsIdempotent | internal/common/yaml/include.go:144 | cleaning twice is cleaning once |
| SlashPath.ParseOfMore | internal/common/yaml/include.go:178 | of one more component nothing and "." stay, ".." drops the last name or climbs, but not above the root, and a name goes behind |
| SlashPath.DirIsParent | internal/common/yaml/include.go:144 | the directory of a cleaned path is the path without its last component |
| SlashPath.JoinFollows | internal/common/yaml/include.go:219 | joining follows the components of the name from the directory |
| SlashPath.WithinDirIsExactIff | internal/common/yaml/include.go:349-354 | the test tells for every path whether it lies in the directory exactly if the directory is the current one or has a name in its path |
| SlashPath.UpperDirAcceptsClimbing | internal/common/yaml/include.go:353 | for a directory further up, such as "..", it accepts exactly the paths that climb at least as far, also those outside |
| SlashPath.RootDirAcceptsItself | internal/common/yaml/include.go:353 | for the root directory it accepts the directory itself only |
| Include.ChildIsRelative | internal/common/yaml/include.go:117-119 | an include is followed from the directory of the including file |
| Include.IncludeAcc.MergeFile | internal/common/yaml/include.go:177-266 | succeeds exactly if the file and all it includes can be merged and no name occurs twice; then it appends exactly the expansion, and the settings of an entry |
| Include.IncludeAcc.MergeItems | internal/common/yaml/include.go:237-251 | succeeds exactly if no name of the list is taken |
| Include.TreeOkIffChainsSound | internal/common/yaml/include.go:178-225 | a workflow can be merged exactly if on every chain of includes from the entry no file recurs, every file is good and every included one lies in the directory |
| IncludeScope.IncludedFilesLieInDir | internal/common/yaml/include.go:219-222 | if no included path holds a backslash and the directory is the current one or has a name, the normal form of every file on every chain lies in the directory |
| IncludeScope.KeyLiesInIff | internal/common/yaml/include.go:349-354 | for such a directory, the normal form of any path lies in it exactly if it passes the guard itself |
| IncludeScope.ChainLiesInIff | internal/common/yaml/include.go:178-222 | the files of a chain lie in the directory exactly if the guard accepts all their normal forms |
| IncludeScope.BackslashEscapes | internal/common/yaml/include.go:177-222 | for every directory with a name, a workflow that can be merged and includes a file outside of it, by a backslash |
| Include.SettingsAreConsistent | internal/common/yaml/include.go:253-262 | each setting of the entry occurs once, in the order of first occurrence, with its last value |
| Include.MergedIsFlat | internal/common/yaml/include.go:271-286 | the merged document has no include left and, besides the merged lists, only settings of the entry |
| Flattening.FlattenIncludes | internal/common/yaml/include.go:131-156 | fails exactly if the entry cannot be read and parsed, or has an include and some chain of includes from it recurs, leaves its directory or holds a file with something that may not be in it, or two items of a list have one name: the id of a task, the name of a parameter or agent; leaves an entry without includes untouched; else the document is the entry's settings and then params, agents and tasks as far as there are any, and the files read are named |
| Flattening.MergedMeans | internal/common/yaml/include.go:177-286 | the specified document has each setting of the entry in the place of its first occurrence with its last value, and each list with exactly the items of that list in the include tree, every one traced through its chain of includes, in the order of the document with the items of an include in its place; the files read are those of the tree in that order |
| Flattening.HasListIff | internal/common/yaml/include.go:279-286 | the document has a pair for one of the three lists exactly if some file of the include tree has an item for it, and its value is then the list of all of them in order |
| Flattening.CanMergeIff | internal/common/yaml/include.go:177-266 | the recursive guard and the collision test amount to sound chains and no name twice |
| Flattening.FileHolds | internal/common/yaml/include.go:177-266 | what any file adds to a list with all it includes is what stands in its tree, in order |
| ArgTemplate.TokensMakeUpText | internal/bots/handler_subprocess.go:495-525 | the tokens of a template make up its text |
| ArgTemplate.ParseOfUnparseIff | internal/bots/handler_subprocess.go:495-525 | parsing gives tokens back exactly if literals and references alternate and each text ends where its separator is first found: of all ways to cut a template the scanner takes this one, whatever the values |
| ArgTemplate.ParseFailsIff | internal/bots/handler_subprocess.go:510-513 | parsing fails exactly if, behind references that are closed, one is opened and not closed |
| ArgTemplate.RenderConcat | internal/bots/handler_subprocess.go:506-522 | rendering is token by token |
| ArgTemplate.OwnTextRestores | internal/bots/handler_subprocess.go:482-493 | substituting each placeholder by its own text gives the template back |
| ArgTemplate.ArgSubstitute | internal/bots/handler_subprocess.go:495-525 | fails exactly if the template cannot be cut at opening braces and the first closing ones behind them; else gives its texts with the values of the keys between them, nothing for a key without a value, whether there is a key, and whether one is unset or empty |
| ArgTemplate.CutIff | internal/bots/handler_subprocess.go:495-525 | a cut of a template, each text free of the braces that end it, is exactly what the scanner finds |
| ArgTemplate.ValidateArgsTemplate | internal/bots/handler_subprocess.go:338-360 | accepts exactly the templates that can be cut and whose keys are the ten known names or begin with "handler_args." |
| ArgTemplate.SubArgs | internal/bots/handler_subprocess.go:462-480 | fails exactly if some argument cannot be cut; else keeps in order exactly the arguments no key of which is unset or empty, each filled with its values |
| CommaSplit.SplitTopLevelCommas | cmd/enju/go.go:805-829 | the parts are the texts between exactly those commas that stand outside of quoted strings with as many brackets and braces closed as opened before them; a backslash in a string takes the next character with it |
| CommaSplit.SplitIsUnique | cmd/enju/go.go:799-829 | every text is made up of plain characters and quoted strings, and however it is, the parts between those commas are the ones that are found |
| CommaSplit.JoinRestores | cmd/enju/go.go:799-804 | joining the parts with commas always gives the text back |
| CommaSplit.SplitOfJoinIff | cmd/enju/go.go:799-829 | splitting a join gives the parts back exactly if no part has a comma that splits it and all but the last leave the scanner at its start |
| ArtifactExpansion.MatchesAnyPattern | internal/common/yaml/expand.go:96-103 | true exactly if for some declaration the path begins with the directory it names, matches its pattern, or is its own text |
| ArtifactExpansion.GlobFiles | internal/common/yaml/expand_fs.go:157-186 | exactly the matching names that are not directories |
| ArtifactExpansion.WalkFiles | internal/common/yaml/expand_fs.go:210-237 | exactly the files and links below the directory that are reached through directories none of which is skipped |
| ArtifactExpansion.ExpandAgainstWorkdir | internal/common/yaml/expand_fs.go:59-105 | fails exactly if some declaration names a file as a directory or the other way around, is a malformed pattern, or cannot be looked at; else the entries are in strictly ascending order exactly the paths that some declaration yields, with the flags of the first that does, and the missing ones exactly the required declarations that yield nothing, in order |
| ArtifactExpansion.DeclarationYields | internal/common/yaml/expand_fs.go:112-237 | what one declaration yields: for a directory the files and links below it, entering no directory named .git, .bare.git, .clone or ending in .preserve-in-progress, for a link to one the link; for a glob the matching paths that are not directories; else the declared text, if there is a file |
| ArtifactExpansion.DirectoryYieldsPathIff | internal/common/yaml/expand_fs.go:210-254 | a declared directory yields a path of the tree exactly if it is a file or a link below, and all components in between are directories of the tree that are entered |
| ArtifactExpansion.AllIsCovered | internal/common/yaml/expand_fs.go:86-100 | every path of the result is covered by a declaration |
| ArtifactExpansion.DirAgreesIff | internal/common/yaml/expand_fs.go:194-231 | in any tree, a directory declaration produces only paths it matches exactly if it produces none, or is in normal form and does not name a link to a directory; of one in another form no path is ever matched |
| ArtifactExpansion.DirAlwaysAgreesIff | internal/common/yaml/expand_fs.go:194-221 | a directory declaration agrees in all trees in which it can be looked at and is not a link exactly if it is in normal form |
| ArtifactExpansion.CleanDirIff | internal/common/yaml/expand.go:39-45 | a directory declaration is in normal form exactly if what precedes its last slash is cleaned, relative and not the current directory |
| ArtifactExpansion.OtherFormsAreNotClean | internal/common/yaml/expand_fs.go:194-231 | with a leading "./" or a doubled slash behind it a declaration leaves the normal form, and "./" has none; all three are valid declarations |
| ArtifactExpansion.GlobAlwaysAgreesIff | internal/common/yaml/expand_fs.go:157-186 | a glob agrees in all trees and for every match relation exactly if the cleaned pattern is the declared text |
| ArtifactExpansion.ClientAgreesWithCoordinator | internal/common/yaml/expand.go:64-70 | for a list of declarations: in all trees without linked directories and for every match relation each produced path is accepted, exactly if the shown path of each declared directory lies in a declared directory and each cleaned glob is itself declared; those in normal form meet this |

## Left out

- RunBuilder.BuildTaskLevel: the order of instances under a key and inside `dependsOn` lists is not stated; the iteration keys are an input; the expansion of a for_each and the making of slugs are not part of this model.
- Dags.Dag.Validate: leaves out the check for dangling edges, which mirrored indexes with the nodes as keys make unreachable.
- Dags.Dag.AddNode: node data is a map of strings; `NodeCount`, `GetNode`, `Leaves`, `Parents` and `Children` are left out as plain look-ups.
- Template resolution: the dependencies and the resolved paths of a task are inputs; prompts, environment, requirements and review targets of instances are left out.
- GitignoreUpdate.UpdateManagedBlock: works on sequences of Unicode characters, which is exact for valid UTF-8; invalid UTF-8 is not modelled.
- EventTail.DispatchedExactlyOnce: a character stands for a byte; decoding a line is a parameter; read errors other than a missing file, and truncation and regrowth of the file between polls, are left out.
- Supervisors.Supervisor.StartAgent: the spawn is an input and pid files are always written; directories, log files and phase files are left out.
- Supervisors.Supervisor.StopAgent: covers the request to stop; waiting and polling are left out, and the exit and the kill are steps of their own.
- Supervisors.Supervisor.OnRunTerminal: each handler is one atomic step; interleavings inside a handler, torn pid files and removing the pid file after the lock is released are left out.
- AutoRunManagers.AutoRunManager.Preflight: waiting for readiness is an input; the failing result names which reply failed and not the error text.
- AutoRunManagers.AutoRunManager.Rollback: assumes that a stopped daemon exits gracefully and that no other caller uses the supervisor meanwhile.
- Daemons.Daemon.RunOnce: fetching, the handler and the submission are one reply; the text of a failure reason is the message of the last error; the release of a claim after a counted miss and at shutdown has no effect on the counters and is left out.
- Daemons.Daemon.FindWork: the projects to look into are an input, the bound one or those listed.
- Flattening.FlattenIncludes: files are parsed trees; the YAML text, the provenance header with its sorted list of files, and the additional link check of the file reader are left out.
- ArtifactExpansion.WalkFiles: the order of the walk and errors inside it are left out; which paths it reaches, through which directories, is kept.
- ArtifactExpansion.GlobFiles: filepath.Glob is taken as filepath.Match over the paths of the tree, and filepath.Match as a relation; a climbing declaration that names the working directory itself is not resolved to it.
- Status, Logs, StopAll, pruning of stale pid files and phases: listings and clean-up without an invariant; a session begins with whatever pid files pruning kept.
- HTTP, the web interface, MCP schemas, command-line parsing, the coordinator engine, store and scheduler, verdict parsing and config merging are not part of this model.
