# Task Graph runtime: a verified model

This project models the long-running Task Graph runtime in `src/modi_harness/long_task/` together with its
checkpoint stores, and proves what the runtime is for:

- **Graph engine.** A versioned dependency graph of Tasks and Groups is edited by patches. Each operation appends
  new revisions, and a first-in first-out worklist rewrites every pending reference to a superseded revision. A
  depth-first search then looks for cycles. The model has the worklist as a method over mutable lists and a queue,
  the search as a class with the two mutable sets of the source, and the patch loop as a method; each is proved equal
  to a specification function, and the theorems are about those functions.
- **Intent rebase.** Invalidated work is closed under dependence, and the live graph is renamed onto fresh revisions.
- **Scheduling and locks.** First-fit batches under global, per-template and exclusive-path limits; leases; Group joins.
- **Durable child protocol.** Compare-and-swap stores, the submission journal, and launching at most once.

## How the files build on each other

| files | content |
|---|---|
| `Core`, `Items`, `Text`, `Order`, `Attempts` | records of the graph and of Attempts; `strip`, sorting and counting |
| `Rewrite`, `RewritePass`, `RewriteRound`, `RewriteLog`, `RewriteRun`, `RewriteTheorems`, `RewriteTermination`, `RewriteRaising` | the reference-rewrite worklist: its loop, one round on the live graph, the invariant of a run, what a finished run achieves, and exactly when a run finishes |
| `Acyclic`, `DepthLimit`, `AcyclicRenaming`, `Validation`, `Ready` | the depth-first search, what its depth limit bounds, graph validation, readiness and progress |
| `Patch`, `PatchConserves`, `RunOrder`, `PatchEdits`, `PatchOrder`, `PatchTermination`, `PatchEffects`, `PatchAccepts`, `Planning` | patches, what they conserve, the order of dependencies that worklist runs and edits hand on, when patches return, what they achieve and when they are accepted, and the Planner's budget |
| `Closure`, `Rebase`, `RebaseLanes`, `RebaseProofs`, `RebaseValid`, `RebaseTheorems`, `RebaseDecides` | the Intent rebase, what it keeps and when it can be planned |
| `Paths`, `Resources`, `UnstablePaths`, `Scheduler`, `SchedulerTheorems`, `Batches`, `Leases`, `SchedulerRuns`, `Groups`, `GroupCommits` | resources, batches, leases, whole runs, Group joins |
| `History`, `Tables`, `RootStore`, `Child`, `ChildStore`, `Namespaces`, `Dispatch` | stores, journals, namespaces, dispatch |

A worklist run may not end, so the specification functions of the worklist and of patches take a number of rounds;
their theorems hold for every number, and `Terminates` says that some number is enough. The methods, which have no
such number, may be called exactly when they terminate.

## What the code does differently from what its documentation suggests

- The worklist runs before the search for cycles. A replacement that makes an item depend on itself, directly or
  through pending items, is therefore not refused: the loop never leaves (`RewriteRaising.SelfDependencyDiverges`,
  `PatchTermination.SelfDependencyNeverReturns`). The exact condition is `RewriteRaising.TerminatesIffNoRevisit`,
  for single operations `PatchTermination.OperationFinishesIff`, for whole patches `PatchTermination.PatchTerminatesIff`;
  a condition on the graph and the patch alone is enough in `PatchTermination.OrderedPatchTerminates`.
- `max_graph_depth` does not bound the longest chain. The search counts an item that it visited before as 0, so what
  it compares with the limit depends on the order of the list (`Acyclic.DeepChainAccepted`, `Acyclic.ListOrderMatters`).
  What it compares is the length of a longest path on which every item is met first
  (`DepthLimit.CountedIsLongestFirst`), so the limit is enforced exactly when some longest chain is such a path
  (`DepthLimit.LimitEnforcedIff`).
- An Intent rebase of a graph with two invalidated active revisions of one logical id builds an invalid graph; it is
  valid exactly when there are none (`RebaseTheorems.RebaseValidIff`).
- Canonicalising a resource path is not idempotent: it strips white space before it normalises, and `"/a /"` becomes
  `"/a "` and then `"/a"`. It is idempotent exactly when the result does not end in white space
  (`Paths.IdempotentIff`). The comparison of path sets canonicalises more than once (`Resources.SetsConflictExact`), so
  it can miss a conflict that the comparison of two paths finds; for which paths is `UnstablePaths.SetTestAgreesIff`.
  One batch can select two Tasks with such paths (`UnstablePaths.BatchSelectsOverlapping`). Runs are therefore exclusive
  in the sense of that comparison (`SchedulerRuns.RunsStaySafe`), and in the sense of the paths themselves where no
  canonical form ends in white space (`SchedulerRuns.RunsAreExclusive`).
- A path that starts with exactly two slashes is normalised to one that does, and then has no common root with other
  paths (`Paths.ConflictIff`).
- A launcher that raises or returns a blank handle leaves no observation, so it is called again by the next start
  (`Dispatch.FailingLauncherCalledTwice`). It is called at most once for a key exactly when no call but the last one
  failed (`Dispatch.CalledOnceIff`), and never again after a launch that succeeded (`Dispatch.NeverRestarted`).
- `replace_dependencies` and `set_priority` append the next revision without a look whether it is listed
  (`PatchAccepts.EnterKeepsUnique`); only the validation at the end of the patch refuses the duplicate.
- A lease becomes retiring not only when its Attempt is cancelled but also when a submission is received
  (`src/modi_harness/long_task/runtime.py:661-666`); verification then ends the Attempt and its hold. The hold of a
  retiring executor outlasts everything but acknowledgement and definite absence for cancelled Attempts
  (`SchedulerRuns.RetiringKeepsHold`).

## Model

| member | source | states |
|---|---|---|
| Rewrite.RewritePendingReferences | src/modi_harness/long_task/graph.py:510-585 | the loop over mutable lists and queue returns or raises what the specification of the worklist says, whenever that ends |
| RewriteRound.RoundEffect | src/modi_harness/long_task/graph.py:523-584 | one popped entry revises exactly the active pending items that mention its source, nothing else, and queues each revision once under a fresh reference |
| RewriteRun.RunContinues | src/modi_harness/long_task/graph.py:523-585 | every round keeps the invariant of a run: the live graph is the image of the first one under the rewrites so far, every target is fresh, every queued entry is reached by a chain of pending dependents, and every popped one was served |
| RewriteTheorems.StaleIsQueued | src/modi_harness/long_task/graph.py:523-585 | at every step, a pending live item that mentions a superseded reference has its rewrite still in the queue |
| RewriteTheorems.FinishedRunIsFaithful | src/modi_harness/long_task/graph.py:510-585 | at exit no active pending item mentions anything that the run took out of use, at its start or in its course; items that were not pending are untouched; all else is unchanged up to revisions, mention by mention, and exactly where what is mentioned stayed in use |
| RewriteTermination.NoRevisitTerminates | src/modi_harness/long_task/graph.py:522-585 | the loop ends if no chain of pending dependents comes back to an item, by a measure that weighs entries by their depth |
| RewriteTermination.FinishedMeansNoRevisit | src/modi_harness/long_task/graph.py:522-585 | a loop that ended normally had no such chain |
| RewriteRaising.TerminatesIffNoRevisit | src/modi_harness/long_task/graph.py:510-585 | when live revisions are the newest, the loop leaves if and only if no chain of pending dependents revisits an item, and then without raising |
| RewriteRaising.AcyclicDependenciesTerminate | src/modi_harness/long_task/graph.py:510-585 | an acyclic live dependency relation, the replacement's dependencies included, is enough |
| RewriteRaising.SelfDependencyDiverges | src/modi_harness/long_task/graph.py:522-585 | a replacement that depends on the revision it replaces makes the loop run for ever |
| RunOrder.StartOrderedTerminates | src/modi_harness/long_task/graph.py:510-585 | an order of the logical ids in which every pending item lies above all that is not dead among what it depends on is enough for the loop to leave |
| RunOrder.RunKeepsOrder | src/modi_harness/long_task/graph.py:510-585 | the same order orders the live items that the run leaves |
| RunOrder.RunKeepsTidy | src/modi_harness/long_task/graph.py:510-585 | after the run the active revisions are the newest again and all that pending items depend on is listed, or still to be added |
| Acyclic.CycleSearch.VisitKey | src/modi_harness/long_task/graph.py:317-331 | the nested function on its two mutable sets returns the depth, or raises, as the specification says, and leaves the sets as it says |
| Acyclic.CycleSearch.VisitKeys | src/modi_harness/long_task/graph.py:326-334 | the loops over dependencies and over all keys do the same |
| Acyclic.SearchIsSound | src/modi_harness/long_task/graph.py:299-334 | an accepted graph has no cycle, a cycle error is raised only on a cycle, and a graph without cycles whose chains fit the limit is accepted |
| Acyclic.CycleErrorIffCycle | src/modi_harness/long_task/graph.py:299-334 | with a depth limit that cannot bind, the cycle error is raised exactly when there is a cycle |
| Acyclic.AcceptedIffCountedDepthFits | src/modi_harness/long_task/graph.py:320-334 | a graph without cycles is accepted exactly when the counted depth is within the limit; the count is the length of some chain |
| DepthLimit.CountedIsLongestFirst | src/modi_harness/long_task/graph.py:320-334 | what the search counts is the length of a longest first path, a condition on the dependencies and the list alone |
| DepthLimit.AcceptedIffFirstPathsFit | src/modi_harness/long_task/graph.py:320-334 | a graph without cycles is accepted exactly when no first path is longer than the limit |
| DepthLimit.LimitEnforcedIff | src/modi_harness/long_task/graph.py:323-331 | the limit bounds every chain, whatever it is, exactly when some longest chain is a first path: no item of it is led to by an item listed before its start, or by an earlier dependency of an item on it |
| Acyclic.DependenciesFirstIsAccepted | src/modi_harness/long_task/graph.py:323-334 | the failing family: a list in dependency order is accepted under limit 1, however long its chains |
| Acyclic.DeepChainAccepted | src/modi_harness/long_task/graph.py:323-334 | a concrete chain of two accepted under limit 1 |
| Acyclic.ListOrderMatters | src/modi_harness/long_task/graph.py:320-334 | the same two items in the other order are refused |
| Validation.AcceptedIffValid | src/modi_harness/long_task/graph.py:20-40 | the checks together accept exactly the graphs with unique revisions, distinct listed active references, sound Tasks and Groups, counts within limits, covered criteria and no cycle |
| Validation.SoundIff | src/modi_harness/long_task/graph.py:240-275 | the per-item checks pass exactly when every Task and Group is sound and all it mentions is listed |
| Validation.ResolvedIff | src/modi_harness/long_task/graph.py:380-409 | the active references resolve exactly when they are listed, of the right kind and distinct |
| Ready.ReadyTasksMeans | src/modi_harness/long_task/graph.py:43-56 | the result holds once each active executable Task that is pending, without an Attempt and validly bound, and all of whose dependencies are completed, and nothing else; the higher priority comes first, then what is required, then the smaller id; it raises exactly on an invalid graph |
| Ready.Progress | src/modi_harness/long_task/graph.py:43-56 | every incomplete active item waits, through active dependencies, for an incomplete one that waits for nothing; if that one is an idle executable Task it is ready |
| Ready.IdleGraphHasReadyTask | src/modi_harness/long_task/graph.py:43-56 | a graph of idle executable Tasks has nothing ready exactly when all are completed |
| PatchConserves.TargetsChecked | src/modi_harness/long_task/graph.py:588-615 | the last check passes exactly when all that live items mention is active or completed |
| Patch.ApplyGraphPatch | src/modi_harness/long_task/graph.py:59-237 | the loop over the operations returns or raises what the specification says, whenever every worklist run it starts ends |
| PatchAccepts.PatchedIff | src/modi_harness/long_task/graph.py:59-237 | exactly when a patch whose operations succeed is accepted: it was made for this revision, says why, does something, and leaves an accepted graph, in which the first patch leaves a Task that may start; and what the new graph is |
| PatchAccepts.EnterIff | src/modi_harness/long_task/graph.py:78-231 | exactly when the edit of each of the twelve operations is accepted, in terms of the live item that it names, the revision and status expected, and what it brings |
| PatchAccepts.EnterKeepsUnique | src/modi_harness/long_task/graph.py:78-231 | an accepted edit lists no revision twice, except that two operations do not look whether the next revision is listed; exactly when they list it twice |
| PatchAccepts.OperationSucceedsIff | src/modi_harness/long_task/graph.py:78-236 | exactly when an operation succeeds, worklist included |
| PatchOrder.EnterIsEdit | src/modi_harness/long_task/graph.py:78-231 | every accepted edit takes at most the named item out of the live graph and puts in exactly what the operation brings or asks for, under revisions newer than any listed |
| PatchConserves.PatchIsSafe | src/modi_harness/long_task/graph.py:59-237 | an accepted patch leaves an accepted graph one revision further; old items keep their places, Groups unchanged and Tasks unchanged but for pending ones cancelled; work that is not pending stays active unless superseded by name; logical ids stay active unless removed by name |
| PatchConserves.ApplyAllConserves | src/modi_harness/long_task/graph.py:78-220 | the same for every sequence of operations |
| PatchConserves.RunConserves | src/modi_harness/long_task/graph.py:510-585 | the same for a worklist run |
| PatchEffects.EntersRevision | src/modi_harness/long_task/graph.py:89-168 | the operations that supersede a Task append exactly the revision asked for, of the uniquely active Task with the expected revision and status |
| PatchEffects.RevisionTakesEffect | src/modi_harness/long_task/graph.py:89-168 | after such an operation and its worklist the named Task is what was asked for and every other live item is unchanged, exactly or up to revisions |
| PatchEffects.CancelTakesEffect | src/modi_harness/long_task/graph.py:192-199 | cancelling takes one pending Task off the active list and keeps it listed as cancelled |
| PatchEffects.ExpandTakesEffect | src/modi_harness/long_task/graph.py:200-236 | after an expansion and its worklist the Task is dead, the Group, which inherits its dependencies and coverage, and exactly the given children are live, every pending item that depended on the Task depends on the active revision of the Group, and all else is unchanged, exactly or up to revisions |
| PatchEffects.GroupReplacementTakesEffect | src/modi_harness/long_task/graph.py:169-191 | after the replacement and its worklist the next revision given stands in the place of the old one, for every pending item that depended on it, and all else is unchanged, exactly or up to revisions |
| PatchOrder.EnterKeepsTidy | src/modi_harness/long_task/graph.py:78-231 | the edit of each of the twelve operations, expansion and Group replacement included, leaves lists on which the worklist may start and its theorems hold, if all that it makes something depend on is listed or still to be added |
| PatchOrder.EnterKeepsOrder | src/modi_harness/long_task/graph.py:78-231 | an edit whose new dependencies go downwards in an order of the logical ids keeps it, the superseded revision standing for its successor |
| PatchOrder.OperationFinishes | src/modi_harness/long_task/graph.py:78-236 | such an operation always finishes, worklist included, and hands on both |
| PatchTermination.OperationFinishesIff | src/modi_harness/long_task/graph.py:78-236 | exactly when any one operation finishes: it queues no rewrite, or no chain of pending dependents, its new dependencies included, comes back to an item, or it expands the child of a pending Group, the only case in which the worklist raises |
| PatchTermination.PatchTerminatesIff | src/modi_harness/long_task/graph.py:59-237 | exactly when a whole patch returns: it is refused at once, or that condition holds of each operation that it comes to |
| PatchTermination.OrderedPatchTerminates | src/modi_harness/long_task/graph.py:59-237 | a patch of any length returns if one order of the logical ids puts every pending item, the new ones included, above all that is not dead among what it depends on, which can be checked on the graph and the patch before the call |
| PatchTermination.OrderedPatchKeepsOrder | src/modi_harness/long_task/graph.py:59-237 | the patched graph has its newest revisions active and is ordered by the same order, so the next patch may be judged in the same way |
| PatchTermination.AcceptedIsRanked | src/modi_harness/long_task/graph.py:299-334 | every graph that the search for cycles accepts has such an order |
| PatchTermination.PlainPatchTerminates | src/modi_harness/long_task/graph.py:59-237 | so a patch of priority and executor policy changes and cancellations returns on every valid graph whose active revisions are the newest |
| PatchTermination.AdditivePatchTerminates | src/modi_harness/long_task/graph.py:59-237 | so does one that also adds Tasks and Groups, each depending on what is listed or was added before it |
| PatchTermination.SelfDependencyNeverReturns | src/modi_harness/long_task/graph.py:89-122 | a patch that makes a Task depend on itself does not return |
| Planning.AcceptedIsPaidFor | src/modi_harness/long_task/planning.py:420-450 | an accepted patch costs one replan unless it is the first, and the count stays within the limit |
| Planning.AssessIff | src/modi_harness/long_task/planning.py:420-450 | exactly when a proposal is accepted, when a refusal may be retried, and when it asks for a fresh context |
| Planning.StaleIff | src/modi_harness/long_task/graph.py:59-62 | a patch is refused as stale exactly when it was made for another revision |
| Planning.BudgetSpent | src/modi_harness/long_task/planning.py:329-358 | the budget shows what is left: an accepted patch takes one replan, the first none, and a repair takes one repair |
| Planning.AllowedNeverOverReplans | src/modi_harness/long_task/planning.py:329-358 | if the budget allows the call, the replan count cannot be what refuses the patch |
| Planning.PlanningIsBounded | src/modi_harness/long_task/planning.py:329-450 | however the Planner answers, a run of assessments and repairs is no longer than its budget |
| Planning.StepSpends | src/modi_harness/long_task/planning.py:420-450 | each assessment that continues loses in the lexicographic measure (replans left, repairs left) |
| Planning.ReplansCounted | src/modi_harness/long_task/planning.py:390-450 | accepted patches after revision zero are all counted, and never more than the limit allows |
| Closure.CloseReplacements | src/modi_harness/long_task/intent.py:616-635 | the loop over a growing set returns the closure |
| Closure.CloseIsLeast | src/modi_harness/long_task/intent.py:616-635 | the closure is the least dependents-closed superset of the initial set |
| Rebase.CollectInitialReplacements | src/modi_harness/long_task/intent.py:567-584 | the loop collects the items that are pending or unproven; what that means is `RebaseDecides.RetainedIff` |
| Rebase.ReplacementRefs | src/modi_harness/long_task/intent.py:638-664 | the loops give each replaced reference the next revision after the newest listed one |
| RebaseLanes.ReplacementRef | src/modi_harness/long_task/intent.py:638-719 | a replacement keeps the logical id and has a reference that no listed item has |
| RebaseProofs.RetainedIsProven | src/modi_harness/long_task/intent.py:567-635 | a retained item has an exact passing proof and mentions nothing invalidated |
| RebaseDecides.RetainedIff | src/modi_harness/long_task/intent.py:554-635 | exactly what a plan retains: each live item, if it and every live item that it reaches through mentions was begun, has not failed, and has a passed, reusable proof that agrees in every field; the rest is invalidated in favour of a newer revision |
| RebaseDecides.PlannedIff | src/modi_harness/long_task/intent.py:411-497 | exactly when there is a plan: the graph is bound to the one confirmed version of its Intent, the new version is new, no two proofs have one target, and each Task at work that is not retained points to exactly one Attempt in flight |
| RebaseDecides.RebasedLists | src/modi_harness/long_task/runtime.py:3219-3347 | every listed item keeps its place and is settled by the decision about it, and what else becomes of the graph |
| RebaseDecides.StalePlanIff | src/modi_harness/long_task/runtime.py:3213-3217 | a plan is refused as stale exactly when the state or its graph has moved on |
| RebaseProofs.ProofLookupNeverFails | src/modi_harness/long_task/intent.py:722-746 | the proof lookup behind a retained decision cannot fail |
| RebaseProofs.CancellationsExact | src/modi_harness/long_task/intent.py:749-779 | cancellations are exactly those of invalidated Tasks with an Attempt in flight, under its lease epoch and token |
| RebaseProofs.EveryAttemptCancelled | src/modi_harness/long_task/intent.py:464-469 | every active Attempt of an invalidated Task is cancelled |
| RebaseTheorems.RebaseValidIff | src/modi_harness/long_task/intent.py:411-497 | the rebased graph is valid exactly when no two invalidated items share a logical id, and then is the old live graph under an injective renaming |
| RebaseTheorems.TargetsStayOk | src/modi_harness/long_task/intent.py:667-719 | live mentions stay active or completed |
| RebaseTheorems.RebasedProgress | src/modi_harness/long_task/intent.py:411-497 | the rebased graph is not stuck |
| RebaseTheorems.EverythingRebound | src/modi_harness/long_task/runtime.py:3219-3243 | every live item is clean work bound to the new Intent, or an old one that only changed its binding state and is exactly proven; either keeps its contract, its executor policy and its purpose, which is what the runtime checks against its configuration |
| RebaseTheorems.InvalidatedAreClosed | src/modi_harness/long_task/runtime.py:3219-3244 | no invalidated revision is left pending or at work |
| RebaseTheorems.RebaseApplies | src/modi_harness/long_task/runtime.py:3201-3357 | a fresh plan is applied exactly when its graph is valid; cancelled Attempts keep slot and paths while they retire, exactly their locks retire with them, one request names each lease, and the prior Intent is superseded |
| RebaseTheorems.PlannedRebaseApplies | src/modi_harness/long_task/intent.py:411-497 | from the proposal on: a plan made from a valid graph is applied exactly when no two invalidated items share a logical id, and leaves the new Intent as the only confirmed one, as the next rebase requires |
| AcyclicRenaming.SearchRenamed | src/modi_harness/long_task/graph.py:299-334 | the depth-first search gives a renamed graph the renamed answer |
| Paths.ConflictIff | src/modi_harness/long_task/resources.py:46-51 | exactly when two absolute paths conflict, in terms of canonical segments and root |
| Paths.ConflictIsPrefix | src/modi_harness/long_task/resources.py:46-51 | apart from paths that start with exactly two slashes, conflict means that one segment list is a prefix of the other |
| Paths.AncestorIff | src/modi_harness/long_task/resources.py:104-107 | the string test for an ancestor is the proper prefix test on segments |
| Paths.ReadBack | src/modi_harness/long_task/resources.py:26-37 | a canonical path read again gives the same root and segments |
| Paths.CanonicalIff | src/modi_harness/long_task/resources.py:26-37 | a path is accepted exactly when its first character that is not white space is a slash |
| Paths.SegmentsSnoc | src/modi_harness/long_task/resources.py:26-37 | what one more part after a slash does to the canonical segments |
| Paths.RootIff | src/modi_harness/long_task/resources.py:26-37 | only a path that starts with exactly two slashes keeps both |
| Paths.IdempotentIff | src/modi_harness/long_task/resources.py:26-37 | canonicalising again changes nothing exactly when the canonical form does not end in white space, that is when the last segment kept from the input does not |
| Paths.NotAlwaysIdempotent | src/modi_harness/long_task/resources.py:26-37 | a concrete path on which it changes something |
| Resources.CanonicalPathsMeans | src/modi_harness/long_task/resources.py:40-43 | the result is sorted, holds exactly the canonical forms, and raises exactly if some path is not absolute |
| Resources.SetsConflictExact | src/modi_harness/long_task/resources.py:54-63 | on every two lists: the comparison raises exactly if some path is not absolute, and otherwise says whether two paths overlap after canonicalising them twice |
| Resources.SetsConflictMeans | src/modi_harness/long_task/resources.py:54-63 | lists of paths whose canonical forms do not end in white space conflict exactly when some path of one conflicts with some path of the other |
| UnstablePaths.UnstablePathsEscape | src/modi_harness/long_task/resources.py:46-63 | a concrete conflict of two paths that the comparison of sets misses |
| UnstablePaths.SetTestAgreesIff | src/modi_harness/long_task/resources.py:46-63 | the comparison of sets agrees with that of two paths, for one path against every path whose canonical form does not end in white space, exactly when its own canonical form does not either, or both refuse it |
| UnstablePaths.BatchSelectsOverlapping | src/modi_harness/long_task/scheduler.py:151-172 | a concrete batch that selects two Tasks whose paths overlap |
| Resources.ExclusivePathConflicts | src/modi_harness/long_task/resources.py:78-101 | the nested loops return the conflicts of the specification |
| Resources.ConflictsExact | src/modi_harness/long_task/resources.py:78-101 | every conflict between a requested path and a held one is reported, with its holder and whether that is retiring, and nothing else is |
| Resources.ExclusiveConflictsMeans | src/modi_harness/long_task/resources.py:78-101 | exactly the Attempts that hold an overlapping path are reported as holders |
| Scheduler.ScheduleReadyTasks | src/modi_harness/long_task/scheduler.py:122-174 | the loop with its lists and its counter returns the batch of the specification |
| Batches.ScheduleMeans | src/modi_harness/long_task/scheduler.py:122-190 | the Tasks that may start are taken once each, in order of priority, need, id and revision; each is selected exactly when it fits beside those selected before it, within the lower of the two global limits, its template's limit, and free of held and claimed paths; otherwise it is blocked with the first limit that applies and the ids of exactly the Attempts in its way |
| Batches.BatchWithinLimits | src/modi_harness/long_task/scheduler.py:122-174 | what is held and selected together stays within the policy's limit and the graph's, and the global limit stops a Task only once one of them is reached |
| Batches.ScheduleSucceeds | src/modi_harness/long_task/scheduler.py:122-174 | scheduling raises on an invalid graph, and otherwise only over a path that is not absolute |
| Order.LessEqIff | src/modi_harness/long_task/scheduler.py:177-190 | the order of ids: one is a beginning of the other, or smaller at the first difference |
| SchedulerTheorems.BatchIsRight | src/modi_harness/long_task/scheduler.py:122-174 | selected and blocked partition the ready Tasks in order, all limits hold jointly with existing Attempts, and no blocked Task can be added |
| SchedulerTheorems.BatchIsExclusive | src/modi_harness/long_task/scheduler.py:151-172 | the comparison of path sets finds no conflict between what two selected Tasks claim |
| SchedulerTheorems.ClaimsAreFree | src/modi_harness/long_task/scheduler.py:151-172 | no selected Task claims a path that is reported as held |
| SchedulerTheorems.AttemptOrderIrrelevant | src/modi_harness/long_task/scheduler.py:122-174 | permuting the Attempts changes nothing |
| SchedulerTheorems.ActiveOrderIrrelevant | src/modi_harness/long_task/scheduler.py:177-190 | permuting the active references of a valid graph into another valid one changes nothing |
| Leases.RenewIff | src/modi_harness/long_task/scheduler.py:240-276 | exactly when a lease renews, and that only its expiry changes |
| SchedulerRuns.RunsStaySafe | src/modi_harness/long_task/scheduler.py:106-174 | over any run of launching from batches of the scheduler, finishing, retiring, releasing and renewing, what is held stays within the policy's and the graph's limits and no two holding Attempts own paths that overlap after canonicalising them twice |
| SchedulerRuns.RunsAreExclusive | src/modi_harness/long_task/scheduler.py:106-174 | so no two holding Attempts own conflicting paths, if the canonical forms of their paths do not end in white space |
| SchedulerRuns.MovesByTarget | src/modi_harness/long_task/transitions.py:38-47 | from where each status of an Attempt can be reached |
| SchedulerRuns.HoldsUntil | src/modi_harness/long_task/scheduler.py:106-237 | over any run an Attempt keeps its binding and its paths, never regains a slot that it lost, and loses it only in a step that ends it, acknowledges its cancellation, or finds its executor definitely absent and its lease suspect |
| SchedulerRuns.RetiringIsLate | src/modi_harness/long_task/runtime.py:661-666 | over any run a lease is retiring only after a submission was received or the Attempt was cancelled |
| SchedulerRuns.RetiringKeepsHold | src/modi_harness/long_task/scheduler.py:193-237 | over any run a cancelled Attempt with a retiring executor stays exactly as it is, slot and paths included, until a step acknowledges the cancellation or finds the executor definitely absent; from then on it holds nothing |
| Groups.WinnerIff | src/modi_harness/long_task/groups.py:52-55 | exactly when an any-success Group has a winner, and that no candidate is better |
| Groups.AnySuccessFailsIff | src/modi_harness/long_task/groups.py:52-61 | exactly when an any-success Group fails |
| Groups.AllRequiredIff | src/modi_harness/long_task/groups.py:40-51 | exactly when an all-required Group is verified, with which candidates, and when it fails |
| Groups.AnySuccessVerdict | src/modi_harness/long_task/groups.py:52-61 | an any-success Group is ready exactly with its winner, its one candidate, and undecided ones are pending exactly as long as all children are |
| Groups.AllRequiredVerdict | src/modi_harness/long_task/groups.py:40-51 | an all-required Group has no winner, and undecided ones are pending exactly as long as all children are |
| Groups.EvaluatesIff | src/modi_harness/long_task/groups.py:26-38 | evaluation raises exactly when a child is not listed |
| Groups.CommitAnySuccessWinner | src/modi_harness/long_task/groups.py:64-140 | the nested loops compute the state of the specification |
| GroupCommits.CommitEndsGroup | src/modi_harness/long_task/groups.py:64-140 | exactly the other children that had not ended are cancelled, all else in the lists is untouched, the Group is completed with its winner and its record, and no slot or lock is freed |
| GroupCommits.WinnerEndsGroup | src/modi_harness/long_task/groups.py:22-140 | committing the winner that evaluation names ends every child, and evaluation then still names it |
| GroupCommits.LosersRetired | src/modi_harness/long_task/groups.py:96-110 | exactly the Attempts of losers are retired |
| GroupCommits.LocksRetire | src/modi_harness/long_task/groups.py:111-114 | exactly the locks of retired Attempts retire |
| GroupCommits.RequestsExact | src/modi_harness/long_task/groups.py:115-123 | one new cancellation per Attempt of a loser, under the lease it held |
| GroupCommits.LoserCancelledOnce | src/modi_harness/long_task/groups.py:94-123 | with distinct ids, exactly one new request names a loser's Attempt |
| GroupCommits.CommitTwice | src/modi_harness/long_task/groups.py:64-140 | committing the same winner again changes nothing |
| RootStore.InMemoryRootCheckpointStore.Create | src/modi_harness/checkpoint/root.py:113-121 | creates at revision 0 under a new id and a new thread, and keeps the thread index an exact inverse |
| RootStore.InMemoryRootCheckpointStore.CompareAndSwap | src/modi_harness/checkpoint/root.py:123-138 | commits exactly what validates against the current snapshot |
| RootStore.InMemoryRootCheckpointStore.LoadByThread | src/modi_harness/checkpoint/root.py:108-111 | finds the snapshot of a thread exactly if there is one |
| RootStore.SqliteRootCheckpointStore.Create | src/modi_harness/checkpoint/root.py:168-187 | the table refines the same specification |
| RootStore.SqliteRootCheckpointStore.CompareAndSwap | src/modi_harness/checkpoint/root.py:189-228 | the table refines the same specification |
| RootStore.SqliteRootCheckpointStore.LoadByThread | src/modi_harness/checkpoint/root.py:165-166 | the unique column finds the snapshot of a thread exactly if there is one |
| RootStore.CreateIff | src/modi_harness/checkpoint/root.py:113-121 | a root is created exactly at revision 0 under a free id and a free thread |
| RootStore.SwapSucceedsIff | src/modi_harness/checkpoint/root.py:246-269 | over any run a swap succeeds exactly when what it commits follows what its client loaded and nobody else committed in between |
| RootStore.TransactionsAreSteps | src/modi_harness/checkpoint/root.py:246-269 | every transaction advances one run by exactly one revision, or changes nothing, and keeps ids and threads coherent |
| RootStore.NoLostUpdate | src/modi_harness/checkpoint/root.py:246-269 | a swap that succeeds replaces exactly the snapshot its client had loaded |
| RootStore.InterferenceIsRefused | src/modi_harness/checkpoint/root.py:252-255 | a swap after anybody else's commit is refused as stale |
| History.RevisionDetermines | src/modi_harness/checkpoint/root.py:246-269 | in any history a revision of a run has one value |
| History.NoRevisionSkipped | src/modi_harness/checkpoint/root.py:258-259 | commits form one chain of consecutive revisions |
| Child.ValidateSubmissionJournal | src/modi_harness/long_task/child.py:783-797 | the loops accept exactly the journals with contiguous sequences, unique ids, and at most one acknowledgement of each known submission |
| Child.PersistIff | src/modi_harness/long_task/child.py:570-645 | a submission is appended exactly when it was made for this child under its active lease, its id is new, its sequence is the next, and the one before it was asked to be repaired; exactly when it changes nothing; and what is committed |
| Child.PersistErrors | src/modi_harness/long_task/child.py:570-624 | exactly which error a submission is refused with |
| Child.AcknowledgeIff | src/modi_harness/long_task/child.py:648-705 | an acknowledgement is recorded exactly when it is the first one of a persisted submission and its lease fits; a request for repair makes its lease the active one |
| Child.PersistKeepsDiscipline | src/modi_harness/long_task/child.py:570-645 | persisting appends exactly the submission and keeps the journal disciplined |
| Child.AcknowledgeKeepsDiscipline | src/modi_harness/long_task/child.py:648-705 | acknowledging appends exactly the acknowledgement and keeps the journal disciplined |
| Child.PersistReplayed | src/modi_harness/long_task/child.py:588-600 | a replay changes nothing exactly as long as the lease has not moved on, and is refused after that |
| Child.AcknowledgeReplayed | src/modi_harness/long_task/child.py:667-679 | an acknowledgement can be replayed at any time |
| ChildStore.InMemoryChildCheckpointStore.CreateOrLoad | src/modi_harness/long_task/child.py:365-379 | creates a child or returns the one with the same binding, and keeps the run id index an exact inverse |
| ChildStore.InMemoryChildCheckpointStore.CompareAndSwap | src/modi_harness/long_task/child.py:381-395 | commits exactly what validates against the current checkpoint |
| ChildStore.InMemoryChildCheckpointStore.PersistSubmission | src/modi_harness/long_task/child.py:570-645 | loads by run id and answers as the specification says; the next submission under the active lease is in the stored checkpoint afterwards |
| ChildStore.InMemoryChildCheckpointStore.AcknowledgeSubmission | src/modi_harness/long_task/child.py:648-705 | the same for acknowledgements; the first fitting one of a persisted submission is stored with its lease |
| ChildStore.SqliteChildCheckpointStore.CreateOrLoad | src/modi_harness/long_task/child.py:438-477 | the table refines the same specification |
| ChildStore.SqliteChildCheckpointStore.CompareAndSwap | src/modi_harness/long_task/child.py:479-517 | the table refines the same specification |
| ChildStore.PersistCommits | src/modi_harness/long_task/child.py:625-645 | a persist computed from the current checkpoint always commits |
| ChildStore.AcknowledgeCommits | src/modi_harness/long_task/child.py:680-705 | an acknowledgement computed from the current checkpoint always commits |
| ChildStore.CreateOrLoadIff | src/modi_harness/long_task/child.py:365-379 | exactly when a child is created or found |
| ChildStore.CommitSucceedsIff | src/modi_harness/long_task/child.py:739-780 | over any run a commit of what follows the loaded checkpoint succeeds exactly when nobody else committed in between, and is refused as stale otherwise |
| ChildStore.JournalHolds | src/modi_harness/long_task/child.py:570-705 | over any interleaving of clients, each committing from a checkpoint it loaded at any earlier time, every journal stays disciplined |
| ChildStore.JournalsOverRuns | src/modi_harness/long_task/child.py:570-705 | so in every reachable journal submission k has sequence k and the epoch of the binding plus k - 1, every submission but the last has exactly one acknowledgement, which asked for repair, and the active epoch is that of the last submission, or the next one once its repair is acknowledged |
| ChildStore.JournalsOnlyGrow | src/modi_harness/long_task/child.py:739-780 | over any run nothing that a journal recorded is lost or changed, and binding, manifest, revision and epoch never go back |
| ChildStore.OneSubmissionPerEpoch | src/modi_harness/long_task/child.py:570-645 | over any run a lease epoch of a child admits at most one submission |
| Namespaces.ParseNamespace | src/modi_harness/long_task/child.py:708-722 | reading a namespace gives back the stripped identity fields |
| Namespaces.NamespaceInjective | src/modi_harness/long_task/child.py:708-722 | two children share a namespace exactly if they have the same identity |
| Namespaces.NamespaceIff | src/modi_harness/long_task/child.py:708-722 | exactly which identities have a namespace |
| Namespaces.UnquoteQuote | src/modi_harness/long_task/child.py:800-803 | percent-encoding loses nothing and leaves no slash |
| Namespaces.Utf8Shape | src/modi_harness/long_task/child.py:800-803 | the bytes that are percent-encoded have the lengths and ranges of UTF-8 |
| Namespaces.QuoteKeeps | src/modi_harness/long_task/child.py:800-803 | plain text is not changed, and encoded text holds only plain characters and percent signs |
| Dispatch.InMemoryChildExecutorBackend.StartExecutor | src/modi_harness/long_task/dispatch.py:64-84 | the fields after a start are those of the specification, and the start count is the number of launches |
| Dispatch.InMemoryChildExecutorBackend.CancelExecutor | src/modi_harness/long_task/dispatch.py:86-102 | the fields after a cancellation are those of the specification |
| Dispatch.CancelIff | src/modi_harness/long_task/dispatch.py:86-102 | over any run a cancellation succeeds exactly under the token of the launch, and otherwise changes nothing |
| Dispatch.StartOnce | src/modi_harness/long_task/dispatch.py:64-84 | a start launches only an unknown key and otherwise returns what is remembered for the same binding |
| Dispatch.NextKeepsInv | src/modi_harness/long_task/dispatch.py:173-306 | every step of a coordinator, a canceller or the child keeps the system invariant |
| Dispatch.LaunchedAtMostOnce | src/modi_harness/long_task/dispatch.py:209-306 | after any interleaving with crashes and races a key was launched successfully at most once, and a running checkpoint holds the backend's handle |
| Dispatch.CalledOnceIff | src/modi_harness/long_task/dispatch.py:64-84 | over any run the launcher is called once for the launch of a key and once for each call that failed, and at most once exactly when no call but the last one failed |
| Dispatch.FailingLauncherCalledTwice | src/modi_harness/long_task/dispatch.py:209-243 | the concrete run in which a launcher that fails is called twice for one key |
| Dispatch.NeverRestarted | src/modi_harness/long_task/dispatch.py:64-102 | a launched key keeps its handle and is never launched again, and a cancelled one stays cancelled |
| Dispatch.CrashIsAdopted | src/modi_harness/long_task/dispatch.py:173-243 | the launch of a coordinator that crashed before acknowledging is adopted by the next one |
| Dispatch.RaceIsAdopted | src/modi_harness/long_task/dispatch.py:64-84 | of two coordinators that race, the second gets the handle of the first without a launch, if their bindings agree |
| Dispatch.StartCompletes | src/modi_harness/long_task/dispatch.py:209-243 | left alone, a coordinator whose launcher succeeds launches the child and sets its checkpoint running with its handle |
| Dispatch.StartRefused | src/modi_harness/long_task/dispatch.py:173-243 | left alone, a coordinator that finds no created checkpoint of its binding, or an executor that is not running or is bound elsewhere, changes nothing |
| Dispatch.OrphanCompletes | src/modi_harness/long_task/dispatch.py:245-269 | left alone, orphaning cancels what was launched, exactly under the token of the launch, and marks the checkpoint, exactly if nothing was launched or it has the same binding |
| Dispatch.OrphanRefused | src/modi_harness/long_task/dispatch.py:245-252 | a child that is missing, bound elsewhere or orphaned already is left alone |
| Dispatch.CommitsOverWhatItSaw | src/modi_harness/long_task/dispatch.py:255-306 | over any run a coordinator's commit replaces exactly the checkpoint that it loaded, or nothing if anybody committed in between, and sets only a created checkpoint running |

## Left out

- Digests, canonical JSON and generated ids: a fingerprint is equality of the content it covers, an id is a parameter, time is an integer.
- The texts of error messages and of recorded failures; each error of the source is one constructor. Which of several faults of a graph or an operation is reported first is modelled, but stated only for cycles, stale patches and submissions.
- Lone surrogates in Python strings, which `quote` refuses: characters are Unicode scalar values.
- SQLite itself, threads and locks: each transaction of a store is one atomic step, and an encoded column decodes to the value that was encoded.
- `list_by_root` of the child stores, and the snapshot conversions of all records.
- Classification and confirmation of an Intent patch (`classify_intent_patch`, `validate_intent_confirmation`): a rebase is planned after both.
- The resource keys of a planned cancellation, which nothing modelled reads.
- The registries against which the runtime checks contracts and executor bindings after a rebase, which leaves both as they were (`RebaseTheorems.EverythingRebound`), and the component invocations it records.
- Planner context projection and normalisation of discovered work in `planning.py`: bounded copying of summaries.
- `PinnedChildWorkflowBackend`, template registries and Workflow execution: the launcher is a parameter that may raise.
- `SessionChildRuntime` in `child_runtime.py`, which sets a checkpoint running without a handle.
- The Workflow runtime that drives these parts; where its steps matter they are stated as the steps of a run.
- SchedulerRuns.RunsStaySafe: the limits are those of one policy and one graph limit for the whole run.
- SchedulerTheorems.ActiveOrderIrrelevant: assumes that both orders are valid, because validity can depend on the order (`Acyclic.ListOrderMatters`).
- RewriteTheorems.FinishedRunIsFaithful: assumes unique revisions, listed active references, and no mention of a revision that is still to come; `PatchOrder.EnterKeepsTidy` derives this for every patch operation.
- Acyclic.CycleErrorIffCycle: sets the depth limit aside, as a limit that binds may be reported first.
