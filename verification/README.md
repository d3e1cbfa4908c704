# Verified model of the pipeline engine

This project models the logic of the pipeline runner and its agent workers, and proves properties of it with Dafny 4.11.

- **The engine** (`EngineModel`, `Engine`): the graph walk as a state machine. One turn of the loop is `Iterate`, split at the save into `Work` (bounds, cancellation, exit, resume hop, skip, execution) and `Route` (gates and edges); `Walk` is a run. What the world contributes to a turn (handler answers, files, clocks, cancellation, timeouts) is an `Input`, arbitrary in every theorem; a run that uses up its inputs was killed. `Engine.PipelineEngine` is the object with the fields the program updates, its methods proved against that machine.
- **Around it**: the retry ladder (`Retry`), status.json and artifact contract (`NodeFiles`, `Freshness`), conditions and edge selection (`Conditions`, `EdgeSelection`), fan-in search (`FanIn`), checkpoint records and files with the resume ladder (`Checkpoints`, `CheckpointFile`, `RunFiles`).
- **What each step computes**: laws in terms of graph, state and inputs alone, for turns (`TurnLaws`, `WalkLaws`), edge choice (`SelectionLaws`), conditions (`ConditionMeaning`), DOT statements (`DotLaws`), provider messages (`MessageLaws`) and remote references (`RemoteLaws`).
- **Whole-run theorems**: crash and resume (`Resume`, `Agreement`, `SkipKills`, `Divergence`), bounds that survive kills (`Kills`), fail-closed goal gates with provenance (`Gates`), skip propagation (`SkipLaw`).
- **Other protocols and algorithms**: finalization of the amplifier-agent worker under every interleaving (`Finalizer`), comment stripping (`Comments`), the DOT parser (`DotSyntax`, `DotParser`, `DotRoundTrip`), the agent loop's history (`Messages`), thread transcripts and verdict reading (`Transcripts`), remote trees (`RemoteDot`).

Check it with `dafny verify dfyconfig.toml`.

Where the program departs from what it says of itself, the model follows the program:

- The table of failed outputs that a resume derives is not always the one the live engine kept; `Agreement` says exactly when it is, and `Divergence` what a difference does and when it is never noticed.
- A resume right after an engine skip routes with the recorded SKIPPED outcome, the live engine with a synthetic FAIL that ignores loop restarts; `Resume.SkipKillExactly` says exactly when both agree.
- The fan-in node of a component with two equally good candidates depends on the iteration order of a set, which changes with the process; `Resume.HopExactly` and `Resume.OrderIsInertExactly` say exactly when a resume is free of it.
- An exit without an unmet gate can jump back on a gate retry: the jump takes any failed last outcome that suggests a node for a gate's failure (`TurnLaws.MetGatesEnd` says exactly when, `TurnLaws.FailureSpendsGateRetries` is such a run).
- The comment on skip routing lets conditions on outcome=skipped win; live they are never met (`TurnLaws.SkippedIsNeverMet`).
- The fallback to unconditional edges after a skip is dead code (`SkipKills.SkipFallbackIsDead`).
- The comments promise that an explicit FAIL is never coerced to success; one wrapped in prose can be, silently or even explicitly, when an object is nested in it or an opening brace follows it. `Transcripts.EmbeddedVerdictExactly` and `Transcripts.WrappedVerdictExactly` say exactly when.

## Model

| member | source | states |
|---|---|---|
| `Agreement.OrderlyCrashResume` | modules/loop-pipeline/amplifier_module_loop_pipeline/engine.py:337-489 | Main crash/resume theorem over traces: if in the uninterrupted run no node completes twice between clears and no handler returns SKIPPED, then dying at any number of saves, any number of times at each, ends with the same result, or in the same state with exactly one more counted step per death after a save. The saves are those of executed nodes, of exits, and of engine skips after which both routings move to the same node; the run must leave room for those steps below the bound, and the processes' set orders break fan-in ties alike |
| `Agreement.TieFreeCrashResume` | modules/loop-pipeline/amplifier_module_loop_pipeline/engine.py:337-489 | The same with nothing assumed of any process's set order, on graphs whose components have at most one best meeting node |
| `Resume.CrashResume` | modules/loop-pipeline/amplifier_module_loop_pipeline/engine.py:409-488 | The same from any pair of equal states, for any kill points whose saved table of failed outputs agrees with its derivation, engine skips included where both routings move alike |
| `Resume.HopExactly` | modules/loop-pipeline/amplifier_module_loop_pipeline/engine.py:752-754 | The first turn of a resumed process, sets iterated in its own order, makes the routing step the killed one had left to do, one counted step later: always at an exit; after an executed node if and only if both orders pick the same fan-in node where there is one to pick; after an engine skip if and only if both routings move to the same node |
| `Resume.HopSim` | modules/loop-pipeline/amplifier_module_loop_pipeline/engine.py:664-670 | However many processes die at one save, re-saves of an exit included, the one that goes on routes as the first would have, one step later per death after a save |
| `Resume.OrderIsInertExactly` | modules/loop-pipeline/amplifier_module_loop_pipeline/engine.py:2036-2051 | All set orders agree at every component exactly on the graphs in which no component has two best meeting nodes |
| `Ties.TieKillDiffers` | modules/loop-pipeline/amplifier_module_loop_pipeline/engine.py:2036-2051 | A concrete run on a graph with such a tie: the process dies at the component's save, and a successor with another set order goes on to another node |
| `Resume.IterateSim` | modules/loop-pipeline/amplifier_module_loop_pipeline/engine.py:605-1359 | One turn from states equal up to what a checkpoint drops, on the same input with ties broken alike, gives equal results and again equal states |
| `Resume.ReloadedFacts` | modules/loop-pipeline/amplifier_module_loop_pipeline/engine.py:409-488 | Save, load and restore give back position, context, completed list, visit counts, budgets and durable outcomes; the failed table is the derived one |
| `Agreement.RecordingAgreesExactly` | modules/loop-pipeline/amplifier_module_loop_pipeline/engine.py:437-445 | Recording a completion keeps the live table of failed outputs equal to the derivation a resume makes if and only if a condition on the state before it holds (no failed key already owned by a later-listed producer, no key left owned by a node that now succeeds, no unmarked handler SKIPPED) |
| `Agreement.WorkAgreesExactly` | modules/loop-pipeline/amplifier_module_loop_pipeline/engine.py:756-764 | The same, both directions, for whatever a whole turn records, engine skips included |
| `Agreement.WalkAgrees` | modules/loop-pipeline/amplifier_module_loop_pipeline/engine.py:440-445 | Along a run in which no node completes twice between clears and no handler returns SKIPPED, live table and derivation agree in every reachable state |
| `Agreement.DerivedExactly` | modules/loop-pipeline/amplifier_module_loop_pipeline/engine.py:440-445 | The derived table holds a key exactly when some recorded FAIL or SKIPPED node is to produce it, under the first such node in recording order |
| `Agreement.OneKill` | modules/loop-pipeline/amplifier_module_loop_pipeline/engine.py:337-488 | The preconditions of the crash theorem are met by a concrete run that really dies at a save |
| `Agreement.RevisitDisagrees` | modules/loop-pipeline/amplifier_module_loop_pipeline/engine.py:1179-1180 | The unconditional claim is false: a reachable two-turn run in which a node fails and then succeeds leaves its key in the live table and not in the derived one |
| `Divergence.DivergesExactly` | modules/loop-pipeline/amplifier_module_loop_pipeline/engine.py:756-764 | Two processes that differ only in the table of failed outputs execute, complete and refuse the same nodes with the same outcomes if and only if neither ever comes to run a node that refers to a key on which the tables then differ; as long as that is so they end alike and still differ in the table only |
| `Divergence.TurnParts` | modules/loop-pipeline/amplifier_module_loop_pipeline/engine.py:2346-2413 | At the first such node their traces part at once: each executes it exactly if its own table holds none of the node's keys |
| `Divergence.ResumedDivergesExactly` | modules/loop-pipeline/amplifier_module_loop_pipeline/engine.py:437-445 | With nothing assumed of the table: a process resumed at a save does what the killed one would have done if and only if the live table and the derived one never differ on a key of the node about to run, and then it ends alike, one step later |
| `Divergence.UnreadDisputeIsHarmless` | modules/loop-pipeline/amplifier_module_loop_pipeline/engine.py:437-445 | A derived table that is wrong only on keys no node refers to changes neither what the resumed process does nor how it ends |
| `Divergence.ResumedRunsTheSkipped` | modules/loop-pipeline/amplifier_module_loop_pipeline/engine.py:437-445 | A concrete reached run whose resumed process executes a node that the live one skips: a node fails, its reader is skipped, the node succeeds on a second visit and the process dies at that save |
| `Resume.SkipKillExactly` | modules/loop-pipeline/amplifier_module_loop_pipeline/engine.py:803-846 | Dying right after an engine skip is reproduced by the resumed process if and only if both routings move to the same node without a loop restart |
| `SkipKills.SkipKillDiffers` | modules/loop-pipeline/amplifier_module_loop_pipeline/engine.py:803-846 | A concrete run that gets there and is not reproduced: a node times out, its successor is skipped, the process dies at that save; live the skip ignores the loop restart and keeps the attempt, resumed it restarts and clears it |
| `SkipKills.SkipGuard` | modules/loop-pipeline/amplifier_module_loop_pipeline/engine.py:803-846 | A guard on the skipped node's edges: where no condition tells a failure from a skip, the death is reproduced exactly when the selected edge exists and does not restart the loop |
| `SkipKills.SkipKillIsClean` | modules/loop-pipeline/amplifier_module_loop_pipeline/engine.py:803-846 | A concrete run that dies at the save of a skip, any number of times, and meets the preconditions of the crash theorem |
| `SkipKills.SkipFallbackIsDead` | modules/loop-pipeline/amplifier_module_loop_pipeline/engine.py:820-833 | The second search for an unconditional edge after a skip never changes the choice: selection has already made it |
| `SkipKills.CapNeverSaved` | modules/loop-pipeline/amplifier_module_loop_pipeline/engine.py:490-536 | Over any chain of kills and resumes no checkpoint's context carries the one-shot fidelity cap, unless a handler writes that key itself |
| `Kills.KillsCannotRefreshTheBound` | modules/loop-pipeline/amplifier_module_loop_pipeline/engine.py:608-630 | However many processes work on one run directory, all their saves together are at most 50 times the node count, and node executions begun at most that plus the number of processes |
| `Kills.ChainClimbs` | modules/loop-pipeline/amplifier_module_loop_pipeline/engine.py:427-438 | Saved step counts climb strictly along the whole chain of processes and never pass the bound |
| `Kills.WalkEnds` | modules/loop-pipeline/amplifier_module_loop_pipeline/engine.py:608-630 | Every walk ends within the step bound, whatever handlers do and however often loops restart |
| `Kills.BudgetsHold` | modules/loop-pipeline/amplifier_module_loop_pipeline/engine.py:1315-1338 | Both retry budgets stay within 0..50 in every reachable state, loop restarts included |
| `EngineModel.StaysInGraph` | modules/loop-pipeline/amplifier_module_loop_pipeline/engine.py:1359 | A turn on a well-formed graph ends at a node of the graph, so every lookup of the next node succeeds |
| `EngineModel.WorkEvents` | modules/loop-pipeline/amplifier_module_loop_pipeline/engine.py:605-1205 | What the first half of a turn reports, and that a save is of the very state it ends in, before any routing |
| `EngineModel.RouteFrame` | modules/loop-pipeline/amplifier_module_loop_pipeline/engine.py:1230-1359 | Routing either keeps completed list, outcomes and failed outputs or empties all three together, and never counts a step |
| `TurnLaws.VerdictExactly` | modules/loop-pipeline/amplifier_module_loop_pipeline/engine.py:1084-1139 | What is recorded when the ladder finishes with an outcome: a success although that outcome was none if and only if the node has auto_status, the outcome is SKIPPED and the artifact contract is met; FAIL stays FAIL, a met claim stays as it is, a promotion keeps label, suggestions, context updates and reason, and a claim without its artifact becomes a failure with nothing of the claim left |
| `TurnLaws.TimeoutVerdict` | modules/loop-pipeline/amplifier_module_loop_pipeline/engine.py:990-1005 | A node that runs out of its own time is accepted in part exactly where allow_partial is set and its artifact is there, and fails otherwise; never explicitly |
| `TurnLaws.TurnStops` | modules/loop-pipeline/amplifier_module_loop_pipeline/engine.py:608-662 | Past the step bound, out of budget or cancelled, asked in this order, a turn ends in the failure that says so and has done nothing |
| `TurnLaws.ExecutionCut` | modules/loop-pipeline/amplifier_module_loop_pipeline/engine.py:960-1082 | An execution cut short by the pipeline's budget, by cancellation or by an unresolvable child graph ends the run in a failure and records and saves nothing as completed |
| `TurnLaws.CompletionReachesContext` | modules/loop-pipeline/amplifier_module_loop_pipeline/engine.py:1182-1187 | Key by key what a completion leaves in the context: its status, its label if it has one, the handler's updates, and everything else as it was |
| `TurnLaws.UnmetGateRetries` | modules/loop-pipeline/amplifier_module_loop_pipeline/engine.py:664-733 | An exit with an unmet gate: the walk goes back to the target of the first such gate in recording order (its own, else its fallback, else the graph's, else the graph's fallback), forgets the attempt and spends one retry, exactly when that target is in the graph and fewer than 50 retries are spent; otherwise the run ends in a failure that names exactly the unmet gates |
| `TurnLaws.MetGatesEnd` | modules/loop-pipeline/amplifier_module_loop_pipeline/engine.py:1685-1703 | An exit with all gates met ends with the last node's outcome, or a plain success where there is none; but a last node that failed and suggested a node of the graph is jumped back from like an unmet gate |
| `TurnLaws.FailureSpendsGateRetries` | modules/loop-pipeline/amplifier_module_loop_pipeline/engine.py:687-696 | A concrete run without any goal gate that jumps back from the exit on a gate retry, because its last node failed with a suggestion |
| `TurnLaws.FanOutMeets` | modules/loop-pipeline/amplifier_module_loop_pipeline/engine.py:1225-1256 | A component with several branches goes on at a best meeting node of theirs, and the run fails exactly when they share no node below them |
| `TurnLaws.EdgeIsFollowed` | modules/loop-pipeline/amplifier_module_loop_pipeline/engine.py:1303-1359 | Following an edge moves the walk and changes nothing else; a restarting one begins the next iteration, counted in the context, with attempt, both budgets and routing label gone and every other context key kept |
| `TurnLaws.NoEdgeRetries` | modules/loop-pipeline/amplifier_module_loop_pipeline/engine.py:1263-1301 | Where every edge out of a completed node has a false condition, the node's own retry target, else its own fallback, never the graph's, takes over while fewer than 50 such retries are spent; otherwise the run ends for the reason the node failed, or for want of an edge |
| `TurnLaws.SkipIsLeft` | modules/loop-pipeline/amplifier_module_loop_pipeline/engine.py:803-846 | A skipped node is left by the edge a plain failure would take, else by its own retry target, without clearing anything; else the run ends |
| `TurnLaws.SkippedIsNeverMet` | modules/loop-pipeline/amplifier_module_loop_pipeline/engine.py:797-810 | An edge with the condition outcome=skipped is never taken live after a skip |
| `WalkLaws.VisitsAreCounted` | modules/loop-pipeline/amplifier_module_loop_pipeline/engine.py:861-866 | Every execution of every walk is told its number: one more than were counted before the walk and during it |
| `WalkLaws.CapIsOneShot` | modules/loop-pipeline/amplifier_module_loop_pipeline/engine.py:490-536 | The fidelity cap is shown to the first node a resumed process executes, if fidelity resolves to full there, and to no other node, unless a handler writes that key itself |
| `Engine.PipelineEngine.Run` | modules/loop-pipeline/amplifier_module_loop_pipeline/engine.py:264-335 | A fresh run on the engine object returns, traces and leaves on disk exactly what the state machine's walk says, the last save flipped to completed if it returned after saving |
| `Engine.PipelineEngine.Resume` | modules/loop-pipeline/amplifier_module_loop_pipeline/engine.py:337-488 | The same from a restored checkpoint, with process-level overrides applied after the snapshot |
| `Engine.PipelineEngine.RunLoop` | modules/loop-pipeline/amplifier_module_loop_pipeline/engine.py:573-1359 | The while loop over fields and local budgets is the walk, turn by turn |
| `Engine.PipelineEngine.FirstHalf` | modules/loop-pipeline/amplifier_module_loop_pipeline/engine.py:605-764 | Bounds, cancellation, exit save, resume hop, skip or execution of one turn, in that order |
| `Engine.PipelineEngine.ExecuteNode` | modules/loop-pipeline/amplifier_module_loop_pipeline/engine.py:866-1205 | Execution of one node up to its save, in source order; what the verdict is, `TurnLaws.VerdictExactly` says, and what reaches the context, `TurnLaws.CompletionReachesContext` |
| `Engine.PipelineEngine.LeaveExit` | modules/loop-pipeline/amplifier_module_loop_pipeline/engine.py:664-735 | Gate verdict at an exit, or the jump back with the attempt cleared and one retry spent |
| `Engine.PipelineEngine.LeaveSkipped` | modules/loop-pipeline/amplifier_module_loop_pipeline/engine.py:803-846 | Routing of an engine skip: as a failure, never clearing, never restarting a loop |
| `Engine.PipelineEngine.LeaveCompleted` | modules/loop-pipeline/amplifier_module_loop_pipeline/engine.py:1230-1359 | Fan-in of a component node, else the selected edge with its loop restart, else a failure retry, else termination |
| `Engine.PipelineEngine.GateOutcome` | modules/loop-pipeline/amplifier_module_loop_pipeline/engine.py:1650-1733 | The loop over recorded outcomes computes the gate verdict of the machine, whose consequences `TurnLaws.UnmetGateRetries` and `TurnLaws.MetGatesEnd` state |
| `Engine.PipelineEngine.PopulateFailedOutputs` | modules/loop-pipeline/amplifier_module_loop_pipeline/engine.py:2415-2429 | Adds every output of the node that no earlier producer failed, and nothing else |
| `Engine.PipelineEngine.CheckNodeSkip` | modules/loop-pipeline/amplifier_module_loop_pipeline/engine.py:2346-2413 | Skips exactly when some referenced key is in the table, naming exactly those keys |
| `Engine.PipelineEngine.SaveCheckpoint` | modules/loop-pipeline/amplifier_module_loop_pipeline/engine.py:1801-1848 | The file on disk is the last checkpoint saved, of the state at the save |
| `Engine.PipelineEngine.MarkRunCompleted` | modules/loop-pipeline/amplifier_module_loop_pipeline/engine.py:1850-1866 | Rewrites the last save as completed; without a save of this process the file stays as found |
| `Engine.PipelineEngine.DeriveFailedOutputs` | modules/loop-pipeline/amplifier_module_loop_pipeline/engine.py:440-445 | The loop over restored outcomes yields the derivation |
| `Gates.GatesFailClosed` | modules/loop-pipeline/amplifier_module_loop_pipeline/engine.py:1661-1699 | A walk that ends without FAIL ended at an exit, and for every goal-gate node completed since the last clear the latest completion is an execution of that node, in the trace, whose last attempt made asserted success explicitly itself, nothing cleared since |
| `Gates.GatesFailClosedAcrossKills` | modules/loop-pipeline/amplifier_module_loop_pipeline/engine.py:1650-1725 | The same for a pipeline killed and resumed any number of times, over the joined trace of its processes up to their last saves |
| `Gates.VerdictLaw` | modules/loop-pipeline/amplifier_module_loop_pipeline/engine.py:1090-1143 | No override makes a verdict explicit or gets a success past the artifact contract: an explicit verdict is what the last attempt made asserted, never promotion, partial acceptance or a partial timeout; RETRY is never recorded |
| `Gates.RecordedSuccessDelivered` | modules/loop-pipeline/amplifier_module_loop_pipeline/engine.py:1128-1143 | Every success recorded for a must_write node, anywhere in any process's trace, was recorded right after an execution of that node whose artifact was fresh, readable and not blank at the final check |
| `Gates.RecordsAreVerdicts` | modules/loop-pipeline/amplifier_module_loop_pipeline/engine.py:1128-1160 | Every recorded execution comes right after its start in the trace and carries the verdict on what that execution met |
| `SkipLaw.SkipsPropagateExactly` | modules/loop-pipeline/amplifier_module_loop_pipeline/engine.py:756-764 | In a fresh run no handler runs on a node that refers to an output of a node failed or skipped since the last clear, and the engine skips a node only when that is so; a skip counts as such a failure, so skipping is transitive |
| `SkipLaw.TableIsAccountedFor` | modules/loop-pipeline/amplifier_module_loop_pipeline/engine.py:2346-2429 | The table holds a key exactly when some completion since the last clear failed it, under the first such producer |
| `SkipLaw.WalkLawful` | modules/loop-pipeline/amplifier_module_loop_pipeline/engine.py:756-764 | The live table is at every point the ledger of the trace so far, from any starting table |
| `SkipLaw.SkipsPropagateFrom` | modules/loop-pipeline/amplifier_module_loop_pipeline/engine.py:756-764 | Skip propagation, both directions, in any process whatever table it starts with |
| `Agreement.ResumedSkipsExactly` | modules/loop-pipeline/amplifier_module_loop_pipeline/engine.py:437-445 | The same in a resumed process, in terms of what its checkpoint records as failed or skipped and what the process itself did since |
| `Retry.ExecuteWithRetry` | modules/loop-pipeline/amplifier_module_loop_pipeline/retry.py:195-460 | The attempt loop yields the ladder's end, call count and events; which attempts those are, `Retry.CallsExactly` says, and how they end, `Retry.EndExactly` |
| `Retry.LadderTrace` | modules/loop-pipeline/amplifier_module_loop_pipeline/retry.py:195-460 | Between 1 and max_attempts calls, never RETRY out, exactly calls-1 retrying events, at most one failed event and only last, with the returned status |
| `Retry.AttemptCountIsCalls` | modules/loop-pipeline/amplifier_module_loop_pipeline/retry.py:432-460 | A set attempt count equals the calls made; it is unset exactly on the partial-acceptance path that fails the artifact contract |
| `Retry.ExplicitIsAsserted` | modules/loop-pipeline/amplifier_module_loop_pipeline/retry.py:226-375 | An explicit outcome of the ladder is the last attempt's own, from the handler or from its status.json |
| `Retry.SuccessDelivered` | modules/loop-pipeline/amplifier_module_loop_pipeline/retry.py:300-375 | A success out of the ladder on a must_write node met the artifact contract when it was checked |
| `Retry.StaleFileIsIgnored` | modules/loop-pipeline/amplifier_module_loop_pipeline/retry.py:226-275 | Status files no newer than their attempt's start change neither result, calls nor events |
| `Retry.CallsExactly` | modules/loop-pipeline/amplifier_module_loop_pipeline/retry.py:226-430 | Which attempts are made: every one before the last was a retryable raise, or a return that after its status.json asked for RETRY or claimed a success without its artifact; if fewer are made than allowed, the last was none of these |
| `Retry.EndExactly` | modules/loop-pipeline/amplifier_module_loop_pipeline/retry.py:226-460 | How the ladder ends, by what its last attempt came to: raises fail, a met claim, a FAIL or a SKIPPED stands, an unmet claim fails, and a last RETRY is accepted in part exactly where allow_partial is set and the artifact is there |
| `Retry.TerminalRaiseEndsIt` | modules/loop-pipeline/amplifier_module_loop_pipeline/retry.py:268-285 | A terminal raise ends the ladder where it happens, with FAIL for its text |
| `Retry.JudgedExactly` | modules/loop-pipeline/amplifier_module_loop_pipeline/retry.py:318-330 | The outcome an attempt is judged by: the handler's own unless a fresh status.json states another, which is then explicit, or states none, which is an explicit FAIL |
| `NodeFiles.OverrideExactly` | modules/loop-pipeline/amplifier_module_loop_pipeline/status_file.py:85-237 | A status.json decides an attempt if and only if it is newer than the attempt's start and does not state, field by field, exactly what the handler returned |
| `NodeFiles.OverrideSays` | modules/loop-pipeline/amplifier_module_loop_pipeline/status_file.py:85-267 | What it then decides: the verdict it states, field by field, or a loud FAIL exactly if it states none; explicit either way, in the handler's session |
| `NodeFiles.AuditFileIsInert` | modules/loop-pipeline/amplifier_module_loop_pipeline/status_file.py:239-248 | Reading back the file written for a handler's own outcome never makes that outcome explicit |
| `NodeFiles.CheckMustWrite` | modules/loop-pipeline/amplifier_module_loop_pipeline/must_write.py:106-237 | Passes exactly outcomes the contract does not bind or whose artifact is fresh, readable and not blank; a violation is a non-explicit FAIL |
| `Freshness.HonestWriteAccepted` | modules/loop-pipeline/amplifier_module_loop_pipeline/freshness.py:76-130 | A write after the start, its time floored to any supported unit, is accepted unless the floored stamp equals the start |
| `Freshness.AcceptedIsRecent` | modules/loop-pipeline/amplifier_module_loop_pipeline/freshness.py:108-130 | An accepted stamp is later than the start minus one second |
| `Freshness.FineStampIsStrict` | modules/loop-pipeline/amplifier_module_loop_pipeline/freshness.py:108-130 | A stamp with no coarse unit is accepted exactly when it is later than the start |
| `Freshness.EarlierStartAccepts` | modules/loop-pipeline/amplifier_module_loop_pipeline/freshness.py:108-130 | Lowering the start keeps acceptance, except when it lands exactly on the stamp |
| `FanIn.FindFanInNode` | modules/loop-pipeline/amplifier_module_loop_pipeline/engine.py:1993-2053 | Breadth-first search from every root finds a non-root common descendant of least maximum distance, ties broken as given |
| `FanIn.Search` | modules/loop-pipeline/amplifier_module_loop_pipeline/engine.py:2021-2034 | On any graph, cyclic or not, the search ends with exactly the reachable nodes, each at its shortest distance |
| `FanIn.NoFanInExactly` | modules/loop-pipeline/amplifier_module_loop_pipeline/engine.py:2036-2053 | Nothing is returned exactly when the roots have no common descendant outside themselves |
| `FanIn.AnyTieCanWin` | modules/loop-pipeline/amplifier_module_loop_pipeline/engine.py:2036-2053 | Every least-spread common descendant is the answer for some iteration order, and nothing else is |
| `EdgeSelection.SelectedEdgeIsUsable` | modules/loop-pipeline/amplifier_module_loop_pipeline/edge_selection.py:45-58 | Whatever is chosen leaves the node and is never an edge whose condition is false; which edge it is, the four laws of `SelectionLaws` say |
| `SelectionLaws.ConditionDecides` | modules/loop-pipeline/amplifier_module_loop_pipeline/edge_selection.py:42-49 | Where conditions hold: the edge of greatest weight, then earliest target in dictionary order, then earliest in the graph, among those that do |
| `SelectionLaws.LabelDecides` | modules/loop-pipeline/amplifier_module_loop_pipeline/edge_selection.py:51-58 | Where none holds and the outcome names a label: the first unconditional edge, in graph order, whose label agrees with it |
| `SelectionLaws.LabelsAgreeExactly` | modules/loop-pipeline/amplifier_module_loop_pipeline/edge_selection.py:188-196 | Two labels agree if and only if they are the same up to case once surrounding space and one accelerator ([Y], Y), Y -) are taken off |
| `SelectionLaws.SuggestionDecides` | modules/loop-pipeline/amplifier_module_loop_pipeline/edge_selection.py:60-78 | Failing that: the first unconditional edge to what the earliest suggested entry with such a target names, as text or as a number by its decimal text; other shapes are passed over |
| `SelectionLaws.WeightDecides` | modules/loop-pipeline/amplifier_module_loop_pipeline/edge_selection.py:80-96 | Failing that: the unconditional edge of greatest weight, then earliest target, then earliest in the graph |
| `EdgeSelection.NoEdgeExactly` | modules/loop-pipeline/amplifier_module_loop_pipeline/edge_selection.py:28-135 | Nothing is chosen exactly when every outgoing edge carries a false condition |
| `EdgeSelection.ConditionsComeFirst` | modules/loop-pipeline/amplifier_module_loop_pipeline/edge_selection.py:56-139 | When some condition holds, the choice has the greatest weight and then the least target among those that hold |
| `EdgeSelection.FalseEdgesAreInert` | modules/loop-pipeline/amplifier_module_loop_pipeline/edge_selection.py:28-135 | Deleting every edge with a false condition changes no choice |
| `EdgeSelection.SelectionSurvivesCheckpoint` | modules/loop-pipeline/amplifier_module_loop_pipeline/edge_selection.py:28-135 | Selection reads only fields that a checkpoint keeps |
| `EdgeSelection.Best` | modules/loop-pipeline/amplifier_module_loop_pipeline/edge_selection.py:137-139 | First of the order by weight descending and target ascending |
| `Conditions.ParseCondition` | modules/loop-pipeline/amplifier_module_loop_pipeline/conditions.py:15-53 | The clause loop yields the clauses of the pieces between separators |
| `Conditions.EvaluateIsAllClauses` | modules/loop-pipeline/amplifier_module_loop_pipeline/conditions.py:70-75 | The early exit for blank conditions agrees with evaluating all clauses, none being left; what one clause says is in `ConditionMeaning` |
| `ConditionMeaning.EqualsMeans` | modules/loop-pipeline/amplifier_module_loop_pipeline/conditions.py:78-96 | A clause key=value, blanks anywhere around its sides, holds exactly when the key stands for the value; later equals signs belong to the value |
| `ConditionMeaning.DiffersMeans` | modules/loop-pipeline/amplifier_module_loop_pipeline/conditions.py:78-96 | A clause key!=value, cut at its first !=, holds exactly when the key does not stand for the value |
| `ConditionMeaning.BareMeans` | modules/loop-pipeline/amplifier_module_loop_pipeline/conditions.py:78-96 | A bare key holds exactly when it does not stand for the empty text |
| `ConditionMeaning.StandsForExactly` | modules/loop-pipeline/amplifier_module_loop_pipeline/conditions.py:98-132 | What a key stands for, by cases: outcome is the label if set and else the status word, preferred_label the label, context.x that entry and else the entry x, any other key its entry, and nothing the empty text |
| `Conditions.EvaluateConjunction` | modules/loop-pipeline/amplifier_module_loop_pipeline/conditions.py:15-75 | Joining two conditions by the separator evaluates to their conjunction, unless the left one ends in half a separator |
| `CheckpointFile.SaveLoadRoundTrip` | modules/loop-pipeline/amplifier_module_loop_pipeline/checkpoint.py:235-308 | Loading a saved checkpoint gives back every field, orders of outcome tables included |
| `CheckpointFile.LadderExactly` | modules/loop-pipeline/amplifier_module_loop_pipeline/checkpoint.py:329-481 | The verdict on a saved checkpoint: accepted exactly when version, liveness, identity and structure all hold, otherwise refused at the first rung that fails |
| `CheckpointFile.AcceptedIsRestorable` | modules/loop-pipeline/amplifier_module_loop_pipeline/checkpoint.py:329-481 | Whoever wrote the file: what the ladder accepts and the engine can read names only nodes of the graph and only real statuses |
| `CheckpointFile.AbsentIsDefault` | modules/loop-pipeline/amplifier_module_loop_pipeline/checkpoint.py:286-308 | A field missing from a file counts as its default, whatever else the file holds |
| `CheckpointFile.UnversionedIsRefused` | modules/loop-pipeline/amplifier_module_loop_pipeline/checkpoint.py:365-398 | A file without a schema version is never resumed, and one without a current node does not parse |
| `Checkpoints.OutcomesRoundTrip` | modules/loop-pipeline/amplifier_module_loop_pipeline/engine.py:1759-1799 | Serializing an outcome table and rehydrating it keeps its order and every durable field |
| `Checkpoints.RecordRoundTrip` | modules/loop-pipeline/amplifier_module_loop_pipeline/engine.py:104-136 | One outcome record likewise: status, label, suggestions, explicitness, notes, reason and attempt count come back |
| `RunFiles.EveryCheckpointIsResumable` | modules/loop-pipeline/amplifier_module_loop_pipeline/checkpoint.py:329-481 | Every checkpoint written along any chain of processes for a graph with a source text passes all six rungs and reads back whole |
| `RunFiles.ResumableExactly` | modules/loop-pipeline/amplifier_module_loop_pipeline/engine.py:1850-1866 | After an entry point: if the process saved, the run directory can be resumed exactly when it was killed; if it saved nothing, exactly when what it found could be |
| `RunFiles.FinishedIsRefused` | modules/loop-pipeline/amplifier_module_loop_pipeline/checkpoint.py:400-408 | Once an entry point that saved has returned, the liveness rung refuses the file, whatever graph is offered |
| `RunFiles.KilledRunContinues` | modules/loop-pipeline/amplifier_module_loop_pipeline/engine.py:409-488 | What a killed process leaves on disk is accepted, and restoring it gives the very state the next process is to start in |
| `RunFiles.ForeignGraphIsRefused` | modules/loop-pipeline/amplifier_module_loop_pipeline/checkpoint.py:410-430 | A checkpoint is refused under any graph with another fingerprint |
| `RunFiles.CancelledResumeMarksNothing` | modules/loop-pipeline/amplifier_module_loop_pipeline/engine.py:1863-1866 | A resumed process cancelled before its first turn returns but leaves the file as found, so still resumable |
| `Finalizer.EachAtMostOnce` | modules/loop-amplifier-agent/amplifier_module_loop_amplifier_agent/__init__.py:413-510 | Under every interleaving: completion hooks entered at most once, turn cancelled at most once, delivery tried at most twice, no handle closed twice, and each existing handle closed exactly once when the finalizer is done |
| `Finalizer.CommittedMeansIt` | modules/loop-amplifier-agent/amplifier_module_loop_amplifier_agent/__init__.py:449-474 | At a dispatch: committed cancelled with a turn was preceded by its cancel and drain; committed success means a reply, no pending cancellation in sight and no cleanup error; both closes come before it |
| `Finalizer.ResultMatchesAnnouncement` | modules/loop-amplifier-agent/amplifier_module_loop_amplifier_agent/__init__.py:512-536 | How execute ends against what it announced: it returns its reply exactly when success was committed, no error is on record and no cleanup failed |
| `Finalizer.CaughtCancellationIsNotSwallowed` | modules/loop-amplifier-agent/amplifier_module_loop_amplifier_agent/__init__.py:512-520 | A cancellation raised in the waiting caller never ends in a normal return |
| `Finalizer.FinalizationIsBounded` | modules/loop-amplifier-agent/amplifier_module_loop_amplifier_agent/__init__.py:475-510 | However often the caller is cancelled, finalization takes at most eleven steps of its own |
| `Finalizer.NeverStuck` | modules/loop-amplifier-agent/amplifier_module_loop_amplifier_agent/__init__.py:475-520 | Until it is done, some step of the finalizer itself is possible |
| `Finalizer.RunInv` | modules/loop-amplifier-agent/amplifier_module_loop_amplifier_agent/__init__.py:413-521 | The protocol invariant holds in every reachable state of every interleaving |
| `Comments.StripComments` | modules/loop-pipeline/amplifier_module_loop_pipeline/dot_parser.py:796-830 | The scanner yields the joined kept pieces of the text |
| `Comments.StrippedPieces` | modules/loop-pipeline/amplifier_module_loop_pipeline/dot_parser.py:796-830 | The stripped text consists of exactly the kept pieces of the source, in order: literals verbatim, unterminated ones included, no new opener |
| `Comments.StrippingSettles` | modules/loop-pipeline/amplifier_module_loop_pipeline/dot_parser.py:796-830 | Stripping is idempotent, its result is comment-free, and exactly the comment-free texts are left as they are |
| `Comments.NoOpenerLeft` | modules/loop-pipeline/amplifier_module_loop_pipeline/dot_parser.py:796-830 | Read by a plain string-literal automaton, the result has no comment opener outside literals |
| `Comments.PiecesLossless` | modules/loop-pipeline/amplifier_module_loop_pipeline/dot_parser.py:796-830 | The pieces of a text, comments included, are the whole text |
| `Comments.CommentExactly` | modules/loop-pipeline/amplifier_module_loop_pipeline/dot_parser.py:796-836 | What a text begins with: a block comment reaches to its first closer after the opener, or to the end; a line comment to the end of its line, the line break staying |
| `DotRoundTrip.ParsePrinted` | modules/loop-pipeline/amplifier_module_loop_pipeline/dot_parser.py:313-364 | Parsing the printed form of any well-formed list of statements, nested subgraphs included, does exactly what the statements mean and goes on with what follows |
| `DotRoundTrip.ParsedGraphIsWellFormed` | modules/loop-pipeline/amplifier_module_loop_pipeline/dot_parser.py:189-205 | Whatever the source, a graph the parser delivers stores each node under its id and joins only stored nodes |
| `DotRoundTrip.ChainAddsItsEdges` | modules/loop-pipeline/amplifier_module_loop_pipeline/dot_parser.py:381-426 | A chain of n ids adds exactly its n-1 edges in order, all with the same attributes; it fails only for a weight that is no number |
| `DotRoundTrip.NodeDefaultsAreScoped` | modules/loop-pipeline/amplifier_module_loop_pipeline/dot_parser.py:269-299 | Node defaults after a statement list depend only on the default blocks at its own level, never on those inside its subgraphs |
| `DotRoundTrip.EdgeDefaultsAreNotScoped` | modules/loop-pipeline/amplifier_module_loop_pipeline/dot_parser.py:284-299 | Edge defaults after a list are those before it under all edge blocks in it, at whatever depth |
| `DotRoundTrip.SubgraphKeepsEdgeDefaultsExactly` | modules/loop-pipeline/amplifier_module_loop_pipeline/dot_parser.py:269-299 | A subgraph leaves edge defaults as they were exactly when its edge blocks only repeat them; node defaults it always restores |
| `DotRoundTrip.LabelExactly` | modules/loop-pipeline/amplifier_module_loop_pipeline/dot_parser.py:284-297 | Which graph label is in force after a list: the last one set at its own level since its last subgraph |
| `DotRoundTrip.SubgraphUsesUpLabel` | modules/loop-pipeline/amplifier_module_loop_pipeline/dot_parser.py:284-297 | A subgraph's new nodes take their class from the label in force at its end, its own or else the enclosing one, and none is left after it |
| `DotLaws.DeclarationExactly` | modules/loop-pipeline/amplifier_module_loop_pipeline/dot_parser.py:429-470 | A node declaration, key by key: its own attribute, else the default in force, else what the node had; an empty text or a default box never replaces what is there, and no other node changes |
| `DotLaws.EdgeEndExactly` | modules/loop-pipeline/amplifier_module_loop_pipeline/dot_parser.py:189-206 | A node first met in an edge is what a bare declaration would make it; a known one stays as it is |
| `DotLaws.ChainEdgeExactly` | modules/loop-pipeline/amplifier_module_loop_pipeline/dot_parser.py:397-425 | Every edge of a chain, key by key: its own attribute, else the edge default in force, else empty, or zero for the weight |
| `DotLaws.LastPairWins` | modules/loop-pipeline/amplifier_module_loop_pipeline/dot_parser.py:622-664 | A block gives each key, quoted or not, the value of the last pair under it, and no other keys |
| `DotLaws.LooseBlockReads` | modules/loop-pipeline/amplifier_module_loop_pipeline/dot_parser.py:622-664 | However its pairs are set apart, by commas, semicolons, several of them or nothing, a block reads as its pairs and ends at its bracket |
| `DotLaws.AssignmentExactly` | modules/loop-pipeline/amplifier_module_loop_pipeline/dot_parser.py:528-549 | Where a graph attribute goes: four names to fields of the graph, one of them under two spellings and one read as a duration, all others to its attributes |
| `DotLaws.GraphBlockExactly` | modules/loop-pipeline/amplifier_module_loop_pipeline/dot_parser.py:528-549 | The attributes of a graph block are set one after the other |
| `DotLaws.SubgraphExactly` | modules/loop-pipeline/amplifier_module_loop_pipeline/dot_parser.py:269-299 | A subgraph's body acts on the graph as if it stood outside, but for node classes, node defaults and the label |
| `DotLaws.ClassExactly` | modules/loop-pipeline/amplifier_module_loop_pipeline/dot_parser.py:287-296 | A subgraph's class goes to every node that is new in it and has none of its own, and to no other |
| `DotSyntax.ParsingGrows` | modules/loop-pipeline/amplifier_module_loop_pipeline/dot_parser.py:313-364 | On every token list that is not rejected parsing terminates, loses nothing, and keeps every node under its id and every edge between registered nodes |
| `DotParser.ParseContext.ParseTokenList` | modules/loop-pipeline/amplifier_module_loop_pipeline/dot_parser.py:208-266 | The recursive parser on its mutable context terminates and computes the parse, or rejects exactly when it does |
| `DotParser.ParseContext.ParseSubgraph` | modules/loop-pipeline/amplifier_module_loop_pipeline/dot_parser.py:269-299 | A subgraph: body in the same context, label to class, node defaults restored |
| `DotParser.ParseContext.ParseEdgeStmt` | modules/loop-pipeline/amplifier_module_loop_pipeline/dot_parser.py:381-426 | A chain statement from its first id to after its attribute block |
| `DotParser.ParseContext.ApplyNode` | modules/loop-pipeline/amplifier_module_loop_pipeline/dot_parser.py:429-468 | Creates a node or updates it in place, defaults below explicit attributes |
| `DotParser.FindMatching` | modules/loop-pipeline/amplifier_module_loop_pipeline/dot_parser.py:667-691 | Index of the matching closer, or the last token |
| `DotParser.ParseAttrBlock` | modules/loop-pipeline/amplifier_module_loop_pipeline/dot_parser.py:622-664 | The pairs of a block, later ones overwriting in place, and the position after it |
| `Messages.EveryResultFindsItsCall` | modules/loop-agent/amplifier_module_loop_agent/messages.py:83-136 | From any history the loop can build, each tool message follows its assistant message and carries the id of the call in its place |
| `Messages.RetentionExactly` | modules/loop-agent/amplifier_module_loop_agent/messages.py:89-128 | With k > 0 messages have the same number, roles, order and ids as without; after the cut before the last k tool-results turns they are identical, before it every tool result is a stub telling the true size |
| `Messages.StubsNameTheirCalls` | modules/loop-agent/amplifier_module_loop_agent/messages.py:119-128 | From any history the loop can build, each stub names the very call it answers and the size of the result it replaces |
| `Messages.Convert` | modules/loop-agent/amplifier_module_loop_agent/messages.py:57-136 | The conversion loop yields system messages first and every other turn rendered in order |
| `Messages.NoBlankText` | modules/loop-agent/amplifier_module_loop_agent/messages.py:139-197 | An assistant message that calls tools or carries reasoning holds no blank text block |
| `MessageLaws.TurnIsRendered` | modules/loop-agent/amplifier_module_loop_agent/messages.py:57-137 | Every turn stands in its place among the messages: system turns first, then all others in order, one message each and one per tool result; a user's text, an assistant's text, calls and reasoning, and every tool result inside the retention window reach the provider as they are |
| `MessageLaws.StubExactly` | modules/loop-agent/amplifier_module_loop_agent/messages.py:45-55 | An elided result is announced by the name of its call and its size in decimal |
| `Messages.AgentSession.ProcessInput` | modules/loop-agent/amplifier_module_loop_agent/agent_session.py:503-760 | The history grows by exactly the seeded turns, the prompt, what was steered before, and the rounds in order; every tool-results turn answers the assistant turn right before it, at equal length, through cancelled batches too |
| `Messages.AgentSession.ExecuteToolCalls` | modules/loop-agent/amplifier_module_loop_agent/agent_session.py:1055-1092 | A batch gives one result per call, in order; a cancelled parallel batch answers every call as cancelled, and only a sequential one cancelled before its end raises |
| `Messages.AgentSession.Hydrate` | modules/loop-agent/amplifier_module_loop_agent/agent_session.py:882-974 | Once per session, whatever comes of it, replays the user and assistant texts of the seeded messages in order and skips the rest |
| `MessageLaws.SeedIsReplayed` | modules/loop-agent/amplifier_module_loop_agent/agent_session.py:930-974 | Seeded messages are replayed one by one in order: users' and assistants' texts, and nothing for anything else |
| `MessageLaws.RoundIsRecorded` | modules/loop-agent/amplifier_module_loop_agent/agent_session.py:640-750 | Each round stands right after the rounds before it if tools answered those: the assistant's text, calls and reasoning; then one result per call, what was steered meanwhile in order, and the warning |
| `Transcripts.ThreadHoldsLatest` | modules/loop-pipeline/amplifier_module_loop_pipeline/backend.py:936-979 | However nodes are run and re-run, a thread holds each node once, with its most recent exchange, and ends with the latest |
| `Transcripts.RerunReplacesTail` | modules/loop-pipeline/amplifier_module_loop_pipeline/backend.py:936-979 | Re-running from position i gives exactly the first i exchanges followed by the rerun |
| `Transcripts.Backend.Append` | modules/loop-pipeline/amplifier_module_loop_pipeline/backend.py:936-979 | Truncates at the node's earlier exchange, appends, and touches no other thread |
| `Transcripts.Backend.ParentMessages` | modules/loop-pipeline/amplifier_module_loop_pipeline/backend.py:981-997 | Replay alternates user and assistant, two lines per exchange |
| `Transcripts.BranchIsIsolated` | modules/loop-pipeline/amplifier_module_loop_pipeline/backend.py:246-305 | Whatever a branch records on its clone, the parent's transcripts stay as they were and the branch starts empty |
| `Transcripts.Backend.Spawned` | modules/loop-pipeline/amplifier_module_loop_pipeline/backend.py:800-872 | Which verdict a child session yields, and that every exchange recorded for it has a non-blank answer |
| `Transcripts.MarkerIsNeverExplicit` | modules/loop-pipeline/amplifier_module_loop_pipeline/backend.py:1477-1539 | A synthesized marker, quoted in any text without an opening brace, never parses as an explicit verdict |
| `Transcripts.MarkerTells` | modules/loop-pipeline/amplifier_module_loop_pipeline/backend.py:1477-1539 | What a marker tells, word for word where there are no braces: whether the verdict was asserted, its status, label and notes |
| `Transcripts.ExplicitIsQuoted` | modules/loop-pipeline/amplifier_module_loop_pipeline/backend.py:1542-1691 | An explicit verdict quotes the output: some part of it is an object that decodes to exactly that status; without one a goal gate gets RETRY or FAIL |
| `Transcripts.LoneVerdictIsRead` | modules/loop-pipeline/amplifier_module_loop_pipeline/backend.py:1568-1600 | A verdict that stands alone is read, bare or in a code fence |
| `Transcripts.EmbeddedVerdictExactly` | modules/loop-pipeline/amplifier_module_loop_pipeline/backend.py:1604-1655 | Any text that is not itself a verdict, whatever stands in it, is read by the piece from its last opening brace to the first closing brace after that alone: the reading is explicit with a status if and only if that piece exists and decodes to that status, and otherwise it is a plain success, or a retry at a gate |
| `Transcripts.WrappedVerdictExactly` | modules/loop-pipeline/amplifier_module_loop_pipeline/backend.py:1604-1655 | A verdict with any text before and after it is honoured if and only if the piece that speaks decodes to the same status: the last object nested in it, itself where nothing is nested, or, should an opening brace follow it, what follows alone; another status there is the explicit reading, none a plain success or a retry |
| `Transcripts.FlatVerdictIsHonoured` | modules/loop-pipeline/amplifier_module_loop_pipeline/backend.py:1604-1655 | Where nothing is nested in it and no opening brace follows it, a verdict wrapped in prose is honoured |
| `Transcripts.LaterBraceDecides` | modules/loop-pipeline/amplifier_module_loop_pipeline/backend.py:1614-1655 | However flat, a verdict followed by an opening brace has no say: what follows decides the reading alone |
| `Transcripts.FailureIsLost` | modules/loop-pipeline/amplifier_module_loop_pipeline/backend.py:1614-1655 | A concrete failing verdict with context updates after a word of prose reads as a plain success, or as a retry at a gate |
| `Transcripts.FailureSatisfiesGate` | modules/loop-pipeline/amplifier_module_loop_pipeline/backend.py:1614-1655 | A concrete failing verdict that reports a successful check reads as an explicit success, which satisfies a goal gate |
| `Transcripts.FailureIsTalkedOver` | modules/loop-pipeline/amplifier_module_loop_pipeline/backend.py:1614-1655 | A concrete flat failing verdict followed by a remark in braces reads as a plain success, or as a retry at a gate |
| `Transcripts.RecoveryTakesLastPiece` | modules/loop-pipeline/amplifier_module_loop_pipeline/backend.py:1614-1629 | Recovery by counting braces finds exactly the piece from the last opening brace to the first closing brace after it, and nothing where there is none |
| `Transcripts.FromSpawn` | modules/loop-pipeline/amplifier_module_loop_pipeline/backend.py:1441-1474 | A completion status is recovered exactly when it reads success or partial success, as that status and never explicitly |
| `RemoteDot.Materialize` | modules/loop-pipeline/amplifier_module_loop_pipeline/remote_dot.py:113-233 | Writes exactly the origins reachable from the entry, each once, all usable, near enough and within the totals; it refuses only when that is impossible; the walk terminates for any reference graph |
| `RemoteDot.TreeExactly` | modules/loop-pipeline/amplifier_module_loop_pipeline/remote_dot.py:161-233 | Such a set exists only where the reachable files permit it, so success and refusal are decided exactly by them |
| `RemoteDot.TreeIsClosed` | modules/loop-pipeline/amplifier_module_loop_pipeline/remote_dot.py:161-233 | The written set holds the entry and everything a file in it refers to |
| `RemoteDot.WriteLevel` | modules/loop-pipeline/amplifier_module_loop_pipeline/remote_dot.py:176-219 | One level of the walk: counts, limits, references in order |
| `RemoteDot.RelativeStaysInside` | modules/loop-pipeline/amplifier_module_loop_pipeline/remote_dot.py:78-110 | A relative reference that resolves stays in its repository and revision and has no climbing component |
| `RemoteLaws.ReferenceExactly` | modules/loop-pipeline/amplifier_module_loop_pipeline/remote_dot.py:78-110 | How a reference is read: left alone with a variable in it, parsed as a remote address with that prefix, refused when absolute, and else walked from the directory of the file it stands in, in the same repository and revision, refused exactly when that leads above the root |
| `RemoteLaws.SplitExactly` | modules/loop-pipeline/amplifier_module_loop_pipeline/remote_dot.py:100-110 | Cutting a path at its separators loses nothing and leaves none |

## Left out

- Branch engines and `run_subgraph`: a component node's handler is one execution like any other; branch clones, which never checkpoint, have no engine object here.
- Handlers, providers, session spawning, hooks, manifests, run logs, timestamps and event payloads: a handler is any outcome, exception or timeout; of the events only executions, records, saves and clears are traced.
- Wording of generated messages: a diagnostic is its kind and arguments; the engine only tests presence and emptiness.
- Values in the context are null or text (their string form), so a context that JSON would change (through its string fallback) is outside the model.
- `max_pipeline_duration`, node timeouts and cancellation are inputs of a turn, not clocks; retry delays and jitter are not modelled.
- Which output keys a node has and which keys it refers to are arbitrary sets per node; the inference that computes them (`build_output_table`, attribute scanning) is not part of this model.
- Fidelity resolution is a flag per node (whether it resolves to full); only the one-shot cap is modelled.
- Boolean attribute coercion and node fields other than those the walk reads: given with the graph. The start node is given; the search for it is left out.
- `FanIn.FindFanInNode`: Python's set iteration order breaks ties; it is an arbitrary preferred node here, given anew in every turn of every process.
- `Agreement.OrderlyCrashResume`: speaks of deaths right after a save. A process that dies between saves loses the work since the last one; its successor does that work again with whatever it then meets, which only the bounds, gates and skip laws cover.
- `Freshness`: integer nanoseconds; floating-point rounding of wall-clock times is not modelled.
- JSON text, SHA-256 and file-system errors: JSON is a parsed value without floats, the fingerprint a given text, writing a file one atomic step. Non-ASCII digits in a textual schema version are not numbers here.
- `CheckpointFile.AcceptedIsRestorable`: a loaded file whose fields have types no engine writes passes or fails the ladder as in the program, but what a resume would then do with it is not modelled.
- Strings are sequences of characters; case folding and whitespace outside the first 256 code points are not modelled.
- `Finalizer`: an operation's own result does not matter beyond ending well or badly; a drain ends well only after the consumer has settled. Errors that are neither ordinary exceptions nor cancellations are left out, and so is cancellation of the finalizer task itself.
- DOT tokenizing, the split of header and body, and how single tokens read (types, escapes, durations, class names) are a given lexicon; attribute values are held as text, so a class given as a bare false is not taken as missing. Missing-comma warnings are left out.
- `DotRoundTrip.ParsePrinted`: printed statements end in a semicolon and pairs in a comma; other spellings of a block are covered by `DotLaws.LooseBlockReads`, statements set apart otherwise by `DotSyntax.ParsingGrows` only.
- `Messages`: tool output serialization, events, follow-ups, limits and loop detection are left out; a steering queue and a warning are given per round. Replacement of system messages by a fresh prompt is left out.
- `Transcripts`: JSON decoding of a verdict is an arbitrary function of the text; session ids, tools and workers of a clone are left out.
- `RemoteDot`: fetching, DOT parsing and URI parsing are arbitrary functions of origin and text; rewriting of cross-repository references and local paths is left out.
- Progress displays, aggregators, preflight, provider settings, prompt assembly, validation, transforms, stylesheets and secret redaction would only add easy members.
