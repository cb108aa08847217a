# A model of envctl's engine and agent-asset sync

envctl installs, fixes and resets a workstation from a manifest of components, and keeps the skills of coding
agents in step with a config. This project models the parts of it whose correctness spans several functions,
and proves what they promise for every input, every run or every interleaving.

| files | what they model |
|---|---|
| `Registry.dfy`, `Executor.dfy`, `RunReport.dfy`, `Blocking.dfy`, `Teardown.dfy`, `GraphAnalysis.dfy` | the dependency graph: Kahn's sort, closures, the run loop with its reset gates, failure blocking and re-verification, what its report says, critical path and path enumeration |
| `SkillSync.dfy`, `SkillRest.dfy`, `SkillAtOnce.dfy`, `SkillConfigs.dfy`, `SkillOutcome.dfy`, `SkillCounts.dfy`, `SkillPins.dfy`, `SkillDriver.dfy` | the skills half of the agent-asset sync: a reference semantics over lock and disk, skill by skill; why it comes to rest; its at-once form for different names; the configs for which it keeps its promises; what becomes of each skill, and what is counted and deleted; and the imperative driver with its hash cache that refines it |
| `Sampler.dfy`, `SamplerRuns.dfy` | the telemetry sampler's condition-variable protocol, as a transition system with any number of callers |
| `Extend.dfy`, `Inherit.dfy` | config inheritance: the identity-keyed merge and the recursive load |
| `YamlLines.dfy`, `SectionItems.dfy`, `ConfigEdit.dfy`, `ConfigBytes.dfy`, `ConfigFile.dfy`, `ConfigNames.dfy`, `ConfigSelectors.dfy` | the comment-preserving config editor, from single lines to whole texts |
| `StringOrder.dfy`, `CanonicalJson.dfy`, `SpecHash.dfy`, `SpecLock.dfy`, `SpecText.dfy` | the spec lock: canonical JSON, FNV-1a with wrap-around, generate and diff |
| `ShellRc.dfy`, `ShellShows.dfy` | owned blocks in shell start-up files |
| `CommandFile.dfy`, `PromptFiles.dfy`, `PromptShows.dfy` | command files with front matter, and which of them are stable as prompt files |
| `Collections.dfy`, `TextLines.dfy`, `Substrings.dfy` | shared facts about lists, lines and occurrences |

How the code's form is kept: code that updates fields becomes a class (`SkillDriver.Driver`,
`GraphAnalysis.PathWalker`, `ShellRc.Files`), loops become methods with loops proved against specification
functions, and what the code promises is proved about those functions. The executor's hooks, the fetched
sources, the copying of trees and the resolution of `extends` references are parameters, so the results hold
for every behaviour of theirs. The sampler is sequentially consistent: each step is atomic and may interleave
with any other.

The theorems about runs and edits come in two kinds. The ones stated through the specification functions say
how operations relate: refinement, round trips, invariants, convergence. `SkillOutcome`, `SkillCounts`, `SkillPins`,
`RunReport`, `SamplerRuns`, `Inherit`, `ConfigSelectors`, `ShellShows`, `PromptShows` and `SpecText` tell the
outcome without them, in terms of the lock, the disk, the trace, the answers, the values and the characters.

Assumptions the results rest on, each a condition a caller can check: for the sync, no two configured or
locked skills share a name, lock entries stand under their own keys, no skill name shadows another (the key's
text then determines source and skill, `SkillKeys.NamesShareExactly`), and copies of a tree have one hash
exactly when they are the same tree; for the editor, values without line breaks and
without quotes or white space at their ends, names that do not read as a field the entry lacks, and texts with
no doubled carriage return before a line feed and none at the end; for shell blocks, markers without
`#`, `>` and line breaks, distinct per file, and contents free of them.

Where the code and its documentation disagree, the model follows the code:

- The comment at the executor's dependency gate says a failed dependency blocks its dependents instead of
  running them on rubble. Only a component that fails itself blocks; one that was blocked does not, so in a
  line of three the third is installed on a failed first (`Blocking.RunsOnRubble`). Everything that requires
  a failed component is blocked, whatever hooks answer, exactly when each component that can fail is a direct
  prerequisite of all that require it (`Blocking.BlocksAllExactly`).
- One source may be listed in several entries and a list may name a skill twice, and a preview is meant to tell
  what a sync will do. When a skill is covered twice (one list names it twice, two entries list it, or one is a
  wildcard of the other's source and the other asks for anything) the preview can count what the sync does not
  do (`SkillConfigs.RepeatIsMiscounted`), and a wildcard may never be installed
  (`SkillConfigs.WildcardIsHidden`). Previews are truthful in every world exactly when no skill is covered
  twice (`SkillConfigs.PreviewTruthfulExactly`). Syncs converge in every world exactly when no skill is asked
  for in two different ways, repeats being harmless (`SkillConfigs.ConvergesExactly`); that lock and
  destinations are in step needs neither (`SkillSync.SyncIsSound`).
- A skill that moves from one source to another shares its name with its old lock entry, and the prune of that
  entry deletes what was just installed (`SkillConfigs.MovedSkillIsLost`). The prune spares what was asked for
  exactly when no stale entry's directory is one of it (`SkillSync.PruneSparesExactly`).
- The gates of a reset keep live components from losing what they require, and tear down requirers first
  (`Teardown.RequirersFinishFirst`); but a requirer whose own removal fails does not stop the teardown
  (`Teardown.TornDownUnderLive`, with the exact condition in `Teardown.GoneFirstExactly`).
- An install brings the wiring of a component that is already present in line; when that fails the step is still
  reported as skipped, and the run can end clean (`RunReport.PresentIsRewired`).
- The lock records the pin a skill was fetched at, to tell when a source is retargeted. A skill whose new pin holds
  the very tree that is in place keeps its entry, old pin included. So its source is fetched in every run, and
  a `--locked` run fails right after a successful one (`SkillPins.PinStaysBehind`; when a run settles what it found
  outdated is told exactly by `SkillPins.SettledExactly`).
- The id in a `DependencyCycle` error may only reach a cycle (`Registry.NamedIdMayOnlyReachCycle`).
- The config editor promises that everything but the edit survives byte for byte. Removing an entry takes the
  whole range up to the next entry or recognised key, so the rest survives exactly when all of that range is
  nested under the entry's dash and does not end in blank or comment lines
  (`ConfigBytes.RemoveKeepsOthersExactly`, with `ConfigBytes.RemoveTakesRemark` and
  `ConfigBytes.RemoveTakesForeignKey` as inputs); an insert rewrites the section's header line
  (`ConfigEdit.InsertKeepsLines`); and CRLF line ends become LF, so splitting and joining is faithful exactly
  for texts without them (`TextLines.LinesJoinExactly`, with `TextLines.CrLfIsLost` as an input).
- All PATH entries go into one block under one marker, so of two components with PATH entries the second one's
  are never added and its reset removes the first one's (`ShellRc.PathBlocksCollide`).
- A fence that a carriage return hides from the parser shows again in the prompt file
  (`PromptFiles.FenceSlipsIn`); which files are stable is told exactly (`PromptFiles.PromptStableExactly`).
- `extends` lists of entries are merged by identity, but a list with a repeated identity, or a source list
  that is not a list, makes the result depend on how files are nested
  (`Extend.AssociativeExactlyWhenTidy`).

## Model

| member | source | states |
|---|---|---|
| Registry.TopoSort | crates/engine/src/model.rs:120-167 | exactly one of three outcomes, each if and only if: a missing dependency is reported when one exists; else a cycle when `requires` has one; else every id once with all its prerequisites earlier, in first-come order with ties broken by key order |
| Registry.SortIsDetermined | crates/engine/src/model.rs:120 | at most one topological order is first-come with ties by key order, so the sort is determined by the manifest |
| Registry.CountDeps | crates/engine/src/model.rs:129-138 | one component: its distinct dependencies are counted, or the first unknown one is named; repeated entries count once |
| Registry.CountIndegrees | crates/engine/src/model.rs:123-139 | after the counting pass every indegree is the number of distinct prerequisites, unless some dependency is missing |
| Registry.InitialQueue | crates/engine/src/model.rs:140-144 | the queue starts with exactly the components without prerequisites, each once, in key order |
| Registry.ReleaseOne | crates/engine/src/model.rs:148-156 | a decrement never underflows and keeps every indegree equal to the number of prerequisites still waiting |
| Registry.ReleaseDependents | crates/engine/src/model.rs:147-157 | one pop queues exactly the components whose last waiting prerequisite it was, each once, in key order |
| Registry.LeftoverReachesCycle | crates/engine/src/model.rs:158-165 | what Kahn’s loop leaves over is exactly the set of components from which a cycle can be reached |
| Registry.FirstNotIn | crates/engine/src/model.rs:159-163 | the id reported is the first key that was not put out |
| Registry.CheckComplete | crates/engine/src/model.rs:158-166 | success if and only if no component lies on a cycle; otherwise the id named is the first in key order that reaches a cycle |
| Registry.NamedIdMayOnlyReachCycle | crates/engine/src/model.rs:158-164 | a two-component manifest in which the id named by the cycle error lies on no cycle itself |
| Registry.Load | crates/engine/src/model.rs:26-66 | a registry loads if and only if nothing is missing and nothing is cyclic, and then its order is the one topological order that is first-come with ties by key order |
| Registry.PrereqIsChain | crates/engine/src/model.rs:169-177 | `is_prereq_of` terminates on a loaded registry and holds exactly when a `requires` chain leads from target to candidate |
| Registry.RequiresTransitive | crates/engine/src/model.rs:169-177 | the transitive dependency relation is transitive |
| Registry.RequiresDescends | crates/engine/src/model.rs:169-177 | whatever a component requires, through any chain, stands earlier in the loaded order |
| Registry.SelectKeepsOrder | crates/engine/src/model.rs:104-117 | filtering the order keeps exactly the chosen ids, each once, in topological order |
| Registry.Closure | crates/engine/src/model.rs:104-117 | the closure is the id and all its transitive prerequisites, once each, prerequisites first; an unknown id is the only error |
| Registry.ReverseDependents | crates/engine/src/model.rs:87-95 | exactly the components that require the id through any chain, once each, in registry order |
| Executor.ForwardOrder | crates/engine/src/executor.rs:56-66 | for any target list the merged closures are duplicate-free, equal the union of the closures and keep every prerequisite before its dependents; it errs exactly when a target is unknown |
| Executor.ClosuresMean | crates/engine/src/executor.rs:56-66 | the merged closures are the targets and everything some target requires through a chain |
| Executor.ProbeTarget | crates/engine/src/executor.rs:104-119 | one target: the live reverse-dependents outside the named set are folded, or the target refused, and nothing else |
| Executor.ProbeDependents | crates/engine/src/executor.rs:99-119 | over all targets: the fold set is exactly the live transitive reverse-dependents outside the targets, the refused set exactly the targets that have one |
| Executor.RemovalOrder | crates/engine/src/executor.rs:37-69 | the gates’ verdict: whole-roster refusal, unknown target or cascade refusal each exactly in its case, otherwise the removal set in reverse registry order |
| Executor.RefusalSpreads | crates/engine/src/executor.rs:99-119 | when a target is refused, so is every other target it requires |
| Executor.RemovalIsLiveClosed | crates/engine/src/executor.rs:165-180 | in refuse and in cascade mode the removal set is closed under live transitive reverse-dependents |
| Executor.RemovalIsOptimal | crates/engine/src/executor.rs:165-180 | refuse mode keeps the largest such closed subset of the targets, cascade mode adds the smallest such superset |
| Executor.GatesMean | crates/engine/src/executor.rs:67-181 | without targets the whole roster goes and nothing is refused; a target is refused exactly when something live that is not reset itself requires it; a cascade keeps every target |
| Executor.TeardownIsDependentsFirst | crates/engine/src/executor.rs:177-178 | the removal order lists the removal set once each, every dependent before what it requires |
| Teardown.RequirersFinishFirst | crates/engine/src/executor.rs:165-345 | in a reset every hook is dispatched only after the steps of all live components that require its component, directly or not, have finished |
| Teardown.GoneFirstExactly | crates/engine/src/executor.rs:193-345 | nothing is torn down under a live component that is not gone, whatever hooks, guards and wiring do, if and only if nothing with a remove hook to run has a live component above it |
| Teardown.TornDownUnderLive | crates/engine/src/executor.rs:193-345 | a component that is still detected after its removal, and whose prerequisite is torn down all the same |
| Executor.SelectMembers | crates/engine/src/executor.rs:53-55 | the ordered filter by membership is the selection of the order |
| Executor.RecordIsExact | crates/engine/src/executor.rs:296-304 | the rosters stay exactly the ids whose recorded result has that status |
| Executor.CleanIffNoBadResult | crates/engine/src/model.rs:433-437 | a run is ok exactly when none of its recorded results is failed, refused or incomplete |
| Executor.Triage | crates/engine/src/executor.rs:223-293 | the program’s triage finds the specified decision, runs the specified probes and reconciles the wiring of what an install finds present |
| Executor.InstallDispatch | crates/engine/src/executor.rs:195-295 | the install hook is dispatched exactly when no direct prerequisite failed, the component is not already present (or in a dry run), and GPU, guard and hook allow it |
| Executor.FixDispatch | crates/engine/src/executor.rs:205-295 | the fix hook is dispatched exactly when the component is unblocked, installed, found unhealthy or short of wiring, confirmed if its wiring is system-wide, and can run (or in a dry run) |
| Executor.RemoveDispatch | crates/engine/src/executor.rs:195-295 | a removal is never blocked or triaged away |
| Executor.EndsWellOnlyChecked | crates/engine/src/executor.rs:306-329 | a reset step ends well only if the component is no longer detected after the last hook, a fix step only if it verifies |
| Executor.DryRunOnlyPreviews | crates/engine/src/executor.rs:195-295 | a dry run dispatches no probe and no hook but the previewed one |
| Executor.StepHooks | crates/engine/src/executor.rs:205-218 | a step is blocked exactly by the dependency gate, and then dispatches nothing |
| Executor.Reverify | crates/engine/src/executor.rs:518-558 | the re-verification turns the result incomplete exactly when a removed component is still detected or a fixed one does not verify |
| Executor.Act | crates/engine/src/executor.rs:295-331 | the action hook, its wiring and its re-verification give the specified status and events |
| Executor.RunStep | crates/engine/src/executor.rs:195-332 | one component’s step appends exactly the specified events, result and roster entry |
| Executor.HooksAreSafe | crates/engine/src/executor.rs:205-218 | appending the hooks of a component whose prerequisites are all done and none failed keeps the trace dispatch-safe |
| Executor.StepExtends | crates/engine/src/executor.rs:193-332 | a step keeps the loop invariant: steps done in order, failures exactly recorded, dispatch safety, one end per component |
| Executor.StepsAreDone | crates/engine/src/executor.rs:193-345 | the specified steps keep, from first to last, what the loop promises: each component finished once, hooks dispatched only when ready, and blocked exactly by a failed direct prerequisite |
| Executor.RunSteps | crates/engine/src/executor.rs:193-332 | the loop over any order leaves exactly the specified trace, failures and results, and keeps dispatch safety and exact blocking |
| Executor.RunForward | crates/engine/src/executor.rs:28-66 | install, fix and probe runs go over all components or the merged closures, prerequisites first, with one result each |
| Executor.RunRemove | crates/engine/src/executor.rs:67-181 | a reset goes over exactly the removal set (the whole roster when there are no targets), or over nothing when the gates stop it, with one result each; every refused target is on the roster |
| Executor.DispatchedWhenReady | crates/engine/src/executor.rs:203-218 | in every trace of a run an action hook is dispatched only after every direct prerequisite’s step has finished and none of them failed |
| Executor.Run | crates/engine/src/executor.rs:28-350 | for every registry, plan and hook behaviour: an install, fix or probe run goes over all components, or exactly the targets and what they require, prerequisites first; a confirmed reset without targets over every component, with one result each; any other reset without targets over nothing, with its refusal; a reset of targets over exactly those nothing else live requires, or with cascade over at least all of them; besides exact rosters, dispatch safety and blocking exactly by direct prerequisites |
| RunReport.NothingForbidden | crates/engine/src/executor.rs:193-345 | in every run no hook is dispatched without its GPU or against its guard, no wiring is touched in a dry run, and no system wiring is fixed unconfirmed |
| RunReport.StepIsAllowed | crates/engine/src/error.rs:41-111 | the same for one step at any moment |
| RunReport.ReportIsTrue | crates/engine/src/executor.rs:193-345 | in the report of a whole run a component has failed, was previewed or wants a reboot exactly when its hook for the phase gave that answer in the run |
| RunReport.ReportedAsAnswered | crates/engine/src/executor.rs:295-304 | the same for one step |
| RunReport.SuccessIsEarned | crates/engine/src/executor.rs:306-329 | a step is reported as a success only when its hook said so, no wiring failed, and the check that ends it was satisfied |
| RunReport.IncompleteIsTold | crates/engine/src/executor.rs:306-329 | a step is incomplete exactly when wiring failed or the check that ends it was not satisfied |
| RunReport.RefusalIsTold | crates/engine/src/executor.rs:278-304 | a refused step has not run its hook, and either a guard said no at that moment or a fix of system wiring was not confirmed |
| RunReport.GuardStopsRemoval | crates/engine/src/error.rs:62-80 | a removal is refused before anything is done exactly when the component is destructive and its guard says no |
| RunReport.SkipIsTold | crates/engine/src/executor.rs:220-277 | a step is skipped for want of a GPU, because an install finds the component present, or because a fix finds it absent, or healthy and wired |
| RunReport.PresentIsRewired | crates/engine/src/executor.rs:220-242 | an install brings the wiring of a present component in line, and reports it skipped even when that fails |
| Blocking.BlockingStopsAfterOneLevel | crates/engine/src/executor.rs:203-218 | in any finished run, a component blocked by a failed prerequisite does not block its own dependents |
| Blocking.RunsOnRubble | crates/engine/src/executor.rs:203-218 | three components in a line, only the first one’s install hook failing: it ends failed, the second blocked, and the third, which requires both, is installed |
| Blocking.BlocksAllExactly | crates/engine/src/executor.rs:203-218 | a failure blocks everything that requires the failed component, under every behaviour of hooks, guards and wiring, if and only if each component of the order that can fail is a direct prerequisite of all that require it |
| Blocking.FailureNeedsHook | crates/engine/src/executor.rs:223-302 | a step ends failed only if the component’s hook for the phase exists, its GPU is there, and a fix can be triaged in |
| GraphAnalysis.Deepest | crates/engine/src/graph.rs:88-97 | the depth of one component is one more than its deepest prerequisite, and the predecessor chosen attains it |
| GraphAnalysis.Depths | crates/engine/src/graph.rs:84-103 | every depth is the length of a longest chain below that component |
| GraphAnalysis.WalkDown | crates/engine/src/graph.rs:104-110 | following predecessors gives a real `requires` chain of exactly the recorded depth |
| GraphAnalysis.CriticalPath | crates/engine/src/graph.rs:84-110 | the critical path is a `requires` chain from a component with no prerequisites to one nothing requires, and no chain in the registry is longer; empty only for an empty registry |
| GraphAnalysis.GuardNeverCuts | crates/engine/src/graph.rs:176-178 | on a loaded registry the ancestor guard is never hit |
| GraphAnalysis.PathWalker.Walk | crates/engine/src/graph.rs:166-182 | the pushing and popping walk emits the paths below the id under the current ancestors and restores the stack |
| GraphAnalysis.DependencyPaths | crates/engine/src/graph.rs:155-186 | the walk returns the path list; for an unknown id, nothing |
| GraphAnalysis.PathsAreExact | crates/engine/src/graph.rs:155-186 | a path is returned exactly when it is a `requires` path from a root to the id, through any diamond |
| GraphAnalysis.PathsAreNoDup | crates/engine/src/graph.rs:155-186 | no path is listed twice if and only if no component that the id stands on, itself included, lists a requirement twice |
| SkillAtOnce.PreviewIsTruthful | crates/agent-env/src/driver.rs:412-541 | when no skill is covered twice, a dry run leaves lock and disk untouched, and all its counts equal those of the applied run |
| SkillSync.SyncIsSound | crates/agent-env/src/driver.rs:209-541 | after an applied run without failures the lock’s keys are exactly the run’s desired keys and every entry’s tree in every destination has the locked hash; a skill may be covered any number of times, by several entries or by one list |
| SkillSync.PruneSparesExactly | crates/agent-env/src/driver.rs:622-670 | the prune leaves lock and destinations in step if and only if no stale entry’s recorded directory is one of an asked-for skill |
| SkillConfigs.MovedSkillIsLost | crates/agent-env/src/driver.rs:622-670 | a skill that moves to another source is installed there, and the prune of its old entry deletes the directory just written |
| SkillAtOnce.AllAtOnce | crates/agent-env/src/driver.rs:282-378 | skills of different names, brought in line one by one in any order, come to what bringing them all in line at once does |
| SkillAtOnce.StepIsAtOnce | crates/agent-env/src/driver.rs:218-274 | one source’s turn, whose list names no skill twice, is its at-once form |
| SkillAtOnce.SyncSettles | crates/agent-env/src/driver.rs:209-279 | when no skill is covered twice, every entry’s wanted skills end up locked as planned and present everywhere, whatever the other entries and the prune do |
| SkillRest.SyncConverges | crates/agent-env/src/driver.rs:209-279 | when no skill is asked for in two different ways (entries and list items that cover it are equal), the same applied run again after a failure-free run changes neither lock nor disk and installs, updates, removes and fails nothing |
| SkillRest.NoFetchAgain | crates/agent-env/src/driver.rs:593-620 | after a failure-free run a source that was served from the lock at its turn is served from the lock again, and does not fail |
| SkillAtOnce.OthersUntouched | crates/agent-env/src/driver.rs:451-476 | applying one entry touches no lock entry another one covers and no tree of another, even of the same source |
| SkillRest.PruneSpares | crates/agent-env/src/driver.rs:622-670 | pruning removes exactly the entries the run did not ask for, and deletes no directory of an asked-for skill |
| SkillConfigs.PreviewTruthfulExactly | crates/agent-env/src/driver.rs:412-620 | for a config whose sources list no name in common: previews tell the counts of the applied run in every world, if and only if no skill is covered twice, by two entries or by one list |
| SkillConfigs.ConvergesExactly | crates/agent-env/src/driver.rs:209-620 | for such a config: a second run finds nothing to do in every world, if and only if no skill is asked for in two different ways |
| SkillConfigs.WildcardIsHidden | crates/agent-env/src/driver.rs:593-620 | a list entry and a wildcard of one source: the preview counts the wildcard’s skill, the applied run serves the wildcard from the lock and never installs it |
| SkillConfigs.RepeatIsMiscounted | crates/agent-env/src/driver.rs:393-484 | one list that names a skill twice: the preview counts two installations, the applied run makes one and finds it unchanged |
| SkillOutcome.OutdatedIsFetched | crates/agent-env/src/driver.rs:593-620 | take a skill that is asked about and, at its source’s turn, is locked at another pin than the config’s, is not locked, or has no good copy left: when the applied run has no failures it was not `--locked`, and everything the fetched source holds ends up locked with the hash, description and revision fetched, and its tree in every destination |
| SkillOutcome.UpdateIsFetched | crates/agent-env/src/driver.rs:118-127 | so does every source that an update concerns |
| SkillOutcome.FetchingTurnBrings | crates/agent-env/src/driver.rs:282-349 | so does every source whose turn fetches, whatever later turns and the prune do |
| SkillOutcome.OutdatedIsDropped | crates/agent-env/src/driver.rs:593-670 | such a skill that its source no longer holds is dropped from the lock |
| SkillPins.SettledExactly | crates/agent-env/src/driver.rs:412-484 | a skill found outdated, and held by its fetched source, is still outdated after a failure-free run if and only if nothing but its pin had moved, or the fetched revision is not the one the config asks for |
| SkillPins.PinStaysBehind | crates/agent-env/src/driver.rs:412-620 | when nothing but its pin had moved, the entry keeps its old pin: a `--locked` run after the successful one fails, although every tree is in place |
| SkillOutcome.OutdatedFails | crates/agent-env/src/driver.rs:225-260 | under `--locked`, or when the fetch fails, such a skill fails the run, previewed or applied |
| SkillOutcome.FailsExactly | crates/agent-env/src/driver.rs:218-274 | a run fails if and only if some entry is not up to date at its turn and may not or cannot be fetched |
| SkillOutcome.UpToDateIsServed | crates/agent-env/src/driver.rs:593-620 | an entry is served from the lock if and only if everything it asks about is locked at its pin with a good copy left, a wildcard finds something locked, and no update concerns it |
| SkillOutcome.UpToDateIsKept | crates/agent-env/src/driver.rs:352-378 | an entry that is up to date keeps its lock entries word for word, whatever its source holds by now, and every destination gets the locked trees |
| SkillOutcome.LockAccounts | crates/agent-env/src/driver.rs:412-541 | in every applied run the lock grows by what was counted as installed and shrinks by what was counted as removed |
| SkillOutcome.EveryItemIsCounted | crates/agent-env/src/driver.rs:282-349 | every item of a list is counted once, as installed, updated, unchanged or broken |
| SkillCounts.TurnCounts | crates/agent-env/src/driver.rs:393-541 | of the skills one turn wants, those not locked count as installed, those whose entry or some destination differs as updated, the rest as unchanged; the same in a preview |
| SkillCounts.DroppedIsGone | crates/agent-env/src/driver.rs:622-670 | an entry that a run drops takes the directory the lock recorded for it along, no other directory goes, and with a failure nothing goes at all |
| SkillDriver.Driver.CacheGet | crates/agent-env/src/driver.rs:163-174 | what the cache answers it keeps answering, and it never answers with a hash the directory does not have |
| SkillDriver.Driver.DestStatus | crates/agent-env/src/driver.rs:188-207 | all destinations match exactly when every cached hash is the expected one; a good copy, if named, really has it |
| SkillDriver.Driver.CopyTo | crates/agent-env/src/driver.rs:452-456 | a copy that breaks part-way leaves no hash in the cache for what it left behind |
| SkillDriver.Driver.CopyAll | crates/agent-env/src/driver.rs:524-531 | copying to every destination but the good one brings all of them to the tree, or stops at the first failure with a sound cache |
| SkillDriver.Driver.ProcessSingle | crates/agent-env/src/driver.rs:393-484 | one fetched skill: the lock, disk and counts afterwards are those of the specification, for apply and preview, and an unchanged skill is not copied |
| SkillDriver.Driver.ProcessLocked | crates/agent-env/src/driver.rs:486-541 | one locked skill is repaired from a good copy, and not copied when every destination has it; the “no good local copy” error cannot occur when one is known |
| SkillDriver.Driver.NeedsFetch | crates/agent-env/src/driver.rs:593-620 | answers exactly whether some wanted skill cannot be served from the lock, and if not, leaves a good copy of each known to the cache |
| SkillDriver.Driver.NamesToServe | crates/agent-env/src/driver.rs:543-559 | the names a source asks for, from its list or from the lock |
| SkillDriver.Driver.IsSatisfiable | crates/agent-env/src/driver.rs:561-591 | the strict-mode check holds exactly when every listed skill, or any skill of a wildcard source, is locked |
| SkillDriver.Driver.IsUpdateActive | crates/agent-env/src/driver.rs:118-127 | an update touches the source exactly when updates are on and either unrestricted or naming one of its skills |
| SkillDriver.Driver.SelectTargets | crates/agent-env/src/fsops.rs:170-233 | the skills chosen by name or path, each with its tree, in the order of the list with its repeats, or each of a wildcard’s once; and the number of broken references |
| SkillDriver.Driver.SyncFromLock | crates/agent-env/src/driver.rs:352-378 | the no-fetch branch never skips a missing entry and never reports a missing good copy |
| SkillDriver.Driver.SyncViaFetch | crates/agent-env/src/driver.rs:282-349 | the fetch branch processes exactly the selected skills and counts the broken ones |
| SkillDriver.Driver.SyncSource | crates/agent-env/src/driver.rs:218-274 | one source’s turn is the specified step, with a sound cache |
| SkillDriver.Driver.SyncSources | crates/agent-env/src/driver.rs:218-274 | the loop over all sources is the specified run |
| SkillDriver.Driver.RemoveStale | crates/agent-env/src/driver.rs:622-670 | the prune deletes the specified entries and directories, in preview none |
| SkillDriver.Driver.SyncSkills | crates/agent-env/src/driver.rs:209-279 | the imperative driver refines the specification whenever no copy breaks, and prunes only when nothing failed |
| SkillDriver.Sync | crates/agent-env/src/driver.rs:147-153 | one run of the skills half from any lock and disk: no missing-good-copy error, nothing pruned after a failure, after a clean run every locked tree in place, however often a source or a skill is listed, and everything it found outdated (another pin, not locked, no good copy) as its source holds it |
| SkillDriver.PreviewThenApply | crates/agent-env/src/driver.rs:412-541 | an applied run without failures after a preview has exactly the preview’s counts |
| SkillDriver.SyncTwice | crates/agent-env/src/driver.rs:209-279 | after a failure-free run of the driver a second one cannot fail, whatever copies would do, and has nothing to install, update or remove, when no skill is asked for in two different ways |
| SkillDriver.SecondRunIsCalm | crates/agent-env/src/driver.rs:209-279 | after a failure-free run every source of the next one finds all its skills in place |
| SkillDriver.StatusMeaning | crates/agent-env/src/driver.rs:188-207 | what the cached answers say about the trees actually on disk |
| SkillKeys.SkillKeyIsInjective | crates/agent-env/src/sync.rs:73-75 | two keys of the same text belong to the same source and skill when neither skill name shadows the other |
| SkillKeys.NamesShareExactly | crates/agent-env/src/sync.rs:73-75 | two different skill names can end up under one key if and only if one ends in `::` and the other name, or is a colon and the other name |
| SkillKeys.SkillKeysCollide | crates/agent-env/src/sync.rs:73-75 | with colons in names two different skills can share a key |
| Sampler.StepKeepsInv | crates/engine/src/command.rs:87-139 | every step of every caller and of the sampler, every timeout and every spurious wake-up keeps the protocol’s invariant |
| Sampler.NoLostWakeup | crates/engine/src/command.rs:92-104 | in every interleaving the sampler sleeps past a new generation only while some caller has still to notify, and on an outdated cadence only while some caller has still to bump or notify |
| Sampler.HolderCanStep | crates/engine/src/command.rs:98-105 | mutual exclusion, and whoever holds the mutex can step; a caller then gives it back |
| Sampler.CallIsHeard | crates/engine/src/command.rs:92-105 | from a caller’s bump until the next sample, a sample is owed; once the call has returned nothing delays it |
| Sampler.AlertRuns | crates/engine/src/command.rs:112-137 | an alert sampler needs at most eight steps of its own to its sample and no timeout |
| Sampler.SampleNowIsServed | crates/engine/src/command.rs:89-105 | a finished `sample_now` or `set_cadence` is followed by a fresh sample within eight sampler steps and without the timeout, or by the exit after a stop |
| Sampler.AtMostOneMoreSample | crates/engine/src/command.rs:106-139 | once `alive` is cleared it stays cleared and in any run at most the sample already under way is emitted |
| Sampler.StopEndsTheSampler | crates/engine/src/command.rs:106-139 | after a stop has returned the sampler is never asleep and reaches its exit in at most seven steps of its own |
| SamplerRuns.CadenceIsLastStored | crates/engine/src/command.rs:77-95 | after every run the cadence is 1000 until a `set_cadence` has stored, and then the larger of 250 and what the last one that stored asked for |
| SamplerRuns.ReturnedHasStored | crates/engine/src/command.rs:92-95 | a `set_cadence` that has returned is among those that have stored |
| SamplerRuns.WaitLastsAsSet | crates/engine/src/command.rs:118-128 | a wait lasts, until the next one begins, as long as the last `set_cadence` stored before it asked for |
| SamplerRuns.NoEarlySample | crates/engine/src/command.rs:121-128 | while the timeout does not run out and no call bumps the generation the sampler goes on waiting, through any spurious wake-up |
| SamplerRuns.TimeoutLeadsToSample | crates/engine/src/command.rs:118-138 | when the timeout does run out, and the lock is free, the next sample follows |
| SamplerRuns.ReachableStops | crates/engine/src/command.rs:109-138 | `alive` is cleared exactly when some `stop` has stored, and the sampler exits only then |
| SamplerRuns.TakenIsEmitted | crates/engine/src/command.rs:119 | in every run each sample taken is emitted once, before the next one is taken |
| SamplerRuns.ReachableCounts | crates/engine/src/command.rs:102-108 | the generation is the number of calls that have bumped it: every call bumps it once |
| Extend.MergeListsLooksUp | crates/agent-env/src/extend.rs:74-89 | in a merged source list the overlay’s last entry of an identity wins, else the base’s first; base entries keep their places and no identity is repeated anew |
| Extend.MergeListsAssociates | crates/agent-env/src/extend.rs:74-89 | merging source lists is associative when the middle list has distinct identities |
| Extend.MergeSourceList | crates/agent-env/src/extend.rs:78-89 | the upserting loop computes that merge |
| Extend.FindIdentity | crates/agent-env/src/extend.rs:82 | the position search finds the first entry of the identity |
| Extend.MergeYaml | crates/agent-env/src/extend.rs:52-72 | the loop over the overlay’s keys computes the merge, whatever the order of the keys |
| Extend.AssociativeExactlyWhenTidy | crates/agent-env/src/extend.rs:50-72 | merging may be regrouped around a value for all neighbours if and only if that value is a mapping whose source lists are lists of distinct identities |
| Extend.RepeatedIdentityBreaks | crates/agent-env/src/extend.rs:74-89 | a repeated identity in the middle list makes some regrouping differ |
| Extend.EmptyIsIdentity | crates/agent-env/src/extend.rs:52-72 | the empty mapping is a left identity for every value and a right identity exactly for mappings |
| Extend.MergeKeepsTidy | crates/agent-env/src/extend.rs:52-72 | merging tidy values gives a tidy value |
| Extend.MergeAllGroups | crates/agent-env/src/extend.rs:169-187 | merging a group first and then its result equals merging its members one by one |
| Extend.LoadValueRecursive | crates/agent-env/src/extend.rs:151-196 | the recursive loader with its depth and cycle guards; on success the caller’s visited set is restored |
| Extend.RootLoadSucceeds | crates/agent-env/src/extend.rs:123-196 | a load succeeds if and only if the root is found and every walk along `extends` has at most nine files, repeats none, and ends in a readable file whose references all resolve |
| Extend.NestedLoadIsFlatMerge | crates/agent-env/src/extend.rs:151-196 | the recursive load equals one left-to-right merge over the post-order of the files, when every file but the root is tidy |
| Extend.PostOrderReaches | crates/agent-env/src/extend.rs:167-187 | the files merged are exactly those some walk of at most nine files leads to |
| Inherit.OverlayWins | crates/agent-env/src/extend.rs:59-69 | for a key that is no source list the merged value is the overlay’s where the overlay has the key, and else the base’s |
| Inherit.SourceListsMerge | crates/agent-env/src/extend.rs:61-66 | a source list that only one side has stays; of two lists the overlay’s last entry of an identity wins over the base’s first; a side that is no list is replaced |
| Inherit.NoMappingIsReplaced | crates/agent-env/src/extend.rs:53-59 | a merge with something that is no mapping gives the overlay |
| Inherit.IdentityMeans | crates/agent-env/src/extend.rs:91-107 | an entry’s identity is its source, its ref or else its branch, and its sub-directory in either spelling, each empty when there is none |
| Inherit.ExtendsMeans | crates/agent-env/src/extend.rs:30-48 | a file extends the one text, or the texts of the list in their order, under `extends`, and the rest is its own content |
| Inherit.LoadedValueIsLast | crates/agent-env/src/extend.rs:151-196 | for a key that is no source list a loaded config has the value of the last file that gives one, in the order of the merge, so a file’s own value before what it extends |
| Inherit.LoadedEntryIsLast | crates/agent-env/src/extend.rs:74-89 | an entry of a loaded config comes from the last file, in the order of the merge, that lists its identity |
| Inherit.ErrorIsReal | crates/agent-env/src/extend.rs:151-196 | an error tells of a real defect: a walk along `extends` that is too deep, repeats a file, or ends in a missing or unreadable one |
| YamlLines.PaddedField | crates/agent-env/src/config_edit.rs:531-549 | an indented `key: value` line is no dash, no top-level key, and reads back as its field |
| YamlLines.DashedField | crates/agent-env/src/config_edit.rs:531-549 | an item’s first line is a dash at its indentation and reads back as its field |
| YamlLines.QuietIsHarmless | crates/agent-env/src/config_edit.rs:469-472 | blank and comment lines carry neither dash nor field |
| YamlLines.TopLevelLine | crates/agent-env/src/config_edit.rs:458-463 | a top-level key line always has an inline value after its colon |
| SectionItems.ChunkedUnique | crates/agent-env/src/config_edit.rs:477-504 | cutting a section into items is the inverse of putting items together: the well-formed cut is unique |
| SectionItems.ItemsAre | crates/agent-env/src/config_edit.rs:477-504 | the shallowest dashes cut the section into items that put together are the section |
| SectionItems.InsertAppends | crates/agent-env/src/config_edit.rs:161-178 | inserting after the last item’s content appends exactly one entry; trailing blank and comment lines move behind it |
| SectionItems.InsertFirst | crates/agent-env/src/config_edit.rs:161-178 | into a section without items the new item goes first and takes the lines already there |
| SectionItems.RemoveDeletes | crates/agent-env/src/config_edit.rs:246-250 | deleting an item deletes exactly its entry, except when it was the only one and deeper dashes stood before it |
| SectionItems.RemoveInserted | crates/agent-env/src/config_edit.rs:139-251 | deleting a freshly inserted item gives the section back exactly when it had landed at the very end |
| SectionItems.InsertAtEnd | crates/agent-env/src/config_edit.rs:165-175 | when the new item lands at the very end |
| ConfigEdit.RenderReadsBack | crates/agent-env/src/config_edit.rs:385-408 | a new item’s lines form one item at the requested indentation that reads back as its source, pin and sub-directory |
| ConfigEdit.OthersKept | crates/agent-env/src/config_edit.rs:431-456 | rewriting one section’s header and body leaves every other section’s lines exactly as they were |
| ConfigEdit.InsertRefinesAppend | crates/agent-env/src/config_edit.rs:139-190 | a successful insert appends exactly the new entry to its section if and only if there is no stray field to pick up, and changes no other section’s entries |
| ConfigEdit.InsertKeepsLines | crates/agent-env/src/config_edit.rs:139-190 | the result is the old lines in order, the header written as `key:`, with the new lines in one place |
| ConfigEdit.InsertFresh | crates/agent-env/src/config_edit.rs:179-189 | a missing section is appended at the end with the item as its only entry |
| ConfigEdit.MatchingCounts | crates/agent-env/src/config_edit.rs:196-222 | none, exactly one or several entries match, told without counting |
| ConfigEdit.RemoveRefinesDelete | crates/agent-env/src/config_edit.rs:227-251 | remove errs exactly when two entries match, changes nothing exactly when none does, and otherwise deletes exactly the matched entry (with its one exception) and touches no other section |
| ConfigBytes.RemoveKeepsOthersExactly | crates/agent-env/src/config_edit.rs:3-7 | a removal cuts out one range of lines from the entry’s dash on; all but the lines nested under the dash survives if and only if every line of the range is one of them |
| ConfigBytes.RemoveTakesRemark | crates/agent-env/src/config_edit.rs:227-251 | two entries with a comment about the second between them: removing the first one takes the comment along |
| ConfigBytes.RemoveTakesForeignKey | crates/agent-env/src/config_edit.rs:227-251 | a key of the file written with a space before its colon, below the last entry: removing the entry takes it along |
| ConfigEdit.RemoveUndoesInsert | crates/agent-env/src/config_edit.rs:139-251 | remove right after insert restores the lines if and only if the section was there with a bare header and was empty or ended in an item’s own lines |
| ConfigFile.InsertTextRefinesAppend | crates/agent-env/src/config_edit.rs:139-190 | the same for whole texts, CRLF line ends included |
| ConfigFile.RemoveTextUndoesInsert | crates/agent-env/src/config_edit.rs:139-251 | on texts the round trip gives the very text back, if and only if under the same condition the text also has no CRLF line ends |
| ConfigFile.InsertItem | crates/agent-env/src/config_edit.rs:139-190 | the index loops of `insert_item` compute the specified edit |
| ConfigSelectors.InsertedTextTells | crates/agent-env/src/config_edit.rs:385-409 | after an insert the section’s last item reads back, with the readers of `remove_names`, as what was asked for: exactly the names in their order, or `*`; its pin under its own key and no other; its sub-directory |
| ConfigSelectors.NewItemTells | crates/agent-env/src/config_edit.rs:385-409 | the same for the new lines alone, whatever dashless lines follow |
| ConfigFile.RemoveItem | crates/agent-env/src/config_edit.rs:227-251 | the index loops of `remove_item` compute the specified edit |
| ConfigFile.ItemExists | crates/agent-env/src/config_edit.rs:369-383 | true exactly when some entry has the item’s whole identity |
| ConfigSelectors.ExistsExactly | crates/agent-env/src/config_edit.rs:369-383 | an item is there already exactly when source, pin and sub-directory all agree |
| ConfigFile.InsertedExists | crates/agent-env/src/config_edit.rs:369-383 | an inserted item is found afterwards |
| ConfigFile.ParseItems | crates/agent-env/src/config_edit.rs:477-504 | the starts and ends found by index are the section’s items, with their indentation and fields |
| ConfigFile.FindMatch | crates/agent-env/src/config_edit.rs:196-222 | no match, the one match, or ambiguity, as counted by the specification |
| ConfigSelectors.FiltersTellApart | crates/agent-env/src/config_edit.rs:196-222 | of two entries of one source: without a filter the removal is ambiguous, a pin or sub-directory that only the first has removes exactly the first, one that neither has removes nothing |
| ConfigFile.ExtractFields | crates/agent-env/src/config_edit.rs:506-526 | the first field of each kind in the range wins |
| ConfigSelectors.KeysRead | crates/agent-env/src/config_edit.rs:506-549 | a line gives a source, a pin under `ref` or `branch`, or a sub-directory in either spelling, and under any other key none of them |
| ConfigSelectors.QuotesComeOff | crates/agent-env/src/config_edit.rs:531-549 | one pair of quotes, double or single, is not part of a value |
| TextLines.JoinedReads | crates/agent-env/src/config_edit.rs:412-422 | joined lines split back into themselves |
| TextLines.LinesJoinExactly | crates/agent-env/src/config_edit.rs:412-422 | splitting a text and joining its lines gives the text back if and only if no carriage return stands before a line feed; otherwise the result is shorter |
| TextLines.CrLfIsLost | crates/agent-env/src/config_edit.rs:412-422 | a text of one CRLF line that comes back with a bare line feed |
| TextLines.LinesCleanExactly | crates/agent-env/src/config_edit.rs:412-422 | the lines of a text read back as they are if and only if its carriage returns are single before line feeds and absent at the end |
| ConfigNames.SomeNamesGone | crates/agent-env/src/config_edit.rs:258-364 | when some names go and some stay, the matched item loses exactly those names and keeps its identity, and every other item and section stays as it was |
| ConfigNames.LastNameDropsEntry | crates/agent-env/src/config_edit.rs:343-350 | the whole entry goes exactly when every name it selects was given, and then by the same edit as removing the entry |
| ConfigNames.NamesMatching | crates/agent-env/src/config_edit.rs:258-279 | not found exactly when no entry matches, ambiguous exactly when two do |
| ConfigNames.DeleteIsDrop | crates/agent-env/src/config_edit.rs:351-360 | deleting the collected places backwards removes those rows and no other line |
| ConfigNames.RemoveNames | crates/agent-env/src/config_edit.rs:258-364 | the index loops of `remove_names` compute the specified edit |
| ConfigSelectors.InsertedNamesLeave | crates/agent-env/src/config_edit.rs:258-364 | of an inserted item a wildcard loses no name, an unknown name stops the removal, some names leave the rest, and all of them take the item along |
| CanonicalJson.PrintEnds | crates/engine/src/lock.rs:139-162 | a printed value, whatever follows it, decodes to that value and the rest only |
| CanonicalJson.QuoteEnds | crates/engine/src/lock.rs:159 | a quoted string with its escapes decodes uniquely |
| CanonicalJson.SameIsNormalEqual | crates/engine/src/lock.rs:144-151 | two values have the same sorted form exactly when they are equal up to the order of object keys |
| CanonicalJson.CanonicalDecides | crates/engine/src/lock.rs:139-162 | two values get the same canonical text if and only if they are equal up to the order in which object keys were written |
| SpecText.TextForms | crates/engine/src/lock.rs:139-162 | constants, numbers and texts as JSON writes them, arrays in brackets, objects in braces with their keys in ascending order, commas between |
| SpecText.EscapesAs | crates/engine/src/lock.rs:159 | which characters are escaped, and how |
| SpecText.OrderIs | crates/engine/src/lock.rs:145-146 | one key comes before another when it is a proper beginning of it or has the smaller character where they first differ |
| SpecText.Utf8Reads | crates/engine/src/lock.rs:134-137 | the bytes hashed are each character’s UTF-8 form (section 3 of RFC 3629) |
| StringOrder.SortedIsUnique | crates/engine/src/lock.rs:145-146 | a set of keys has only one sorted list |
| SpecHash.StepIsBijection | crates/engine/src/lock.rs:166-169 | each hash round with 64-bit wrap-around can be undone, and every state is the round of exactly one |
| SpecHash.StepTellsBytes | crates/engine/src/lock.rs:166-169 | two different bytes take the same state to different states |
| SpecHash.OneByteShows | crates/engine/src/lock.rs:164-171 | two inputs of equal length that differ in exactly one byte never hash alike |
| SpecHash.OneByteShowsInHex | crates/engine/src/lock.rs:164-171 | nor do their sixteen digits agree |
| SpecHash.ComputeFnv1aHex | crates/engine/src/lock.rs:164-171 | the loop computes that hash |
| SpecHash.PublishedValues | crates/engine/src/lock.rs:164-171 | the hashes of the empty input and of `a` are the published FNV-1a values |
| SpecLock.SortNamesSorts | crates/engine/src/lock.rs:89-90 | the stored edges are the same names in ascending order |
| SpecLock.LockForHolds | crates/engine/src/lock.rs:86-101 | a generated lock holds exactly one entry per component and it is that component’s |
| SpecLock.LockRecords | crates/engine/src/lock.rs:86-101 | every entry of a generated lock records its component’s hash and exactly its component’s edges, in ascending order |
| SpecLock.Generate | crates/engine/src/lock.rs:86-101 | the loop builds that lock |
| SpecLock.Diff | crates/engine/src/lock.rs:112-131 | the report lists exactly the drifted components with their kind, each once, in the order of their ids |
| SpecText.DriftMeans | crates/engine/src/lock.rs:112-131 | a component is reported as added, removed or changed exactly when it is in the manifest only, in the lock only, or in both with different hashes |
| SpecLock.EmptyReport | crates/engine/src/lock.rs:112-131 | no drift is reported exactly when manifest and lock have the same ids with the same hashes |
| SpecLock.ReportIsUnique | crates/engine/src/lock.rs:112-131 | that determines the report |
| SpecLock.FreshLockIsClean | crates/engine/src/lock.rs:86-162 | a freshly generated lock shows no drift, also after keys were reordered |
| SpecLock.OneByteEditIsReported | crates/engine/src/lock.rs:112-171 | an edit of one byte of a component’s canonical text is always reported as changed |
| SpecLock.OneAsciiCharIsOneByte | crates/engine/src/lock.rs:134-137 | replacing one ASCII character of the canonical text is such an edit |
| Substrings.LineFeedSplits | crates/engine/src/wiring.rs:258-338 | a marker never matches across a line feed |
| ShellRc.MarkersApart | crates/engine/src/wiring.rs:223-228 | no begin line stands inside another block’s marker lines, and no end line inside its own begin line |
| ShellRc.ApplyThenRevert | crates/engine/src/wiring.rs:258-338 | on one text, applying all blocks and reverting all of them gives the original plus one line feed per block |
| ShellRc.ApplyTwice | crates/engine/src/wiring.rs:258-275 | applying any list of blocks twice to any text is applying it once |
| ShellRc.RevertFirst | crates/engine/src/wiring.rs:277-338 | reverting a block cuts exactly its own span, with later blocks left in place |
| ShellRc.RevertCutsOneSpan | crates/engine/src/wiring.rs:277-338 | whatever the text, a revert leaves it as it is or cuts one span from a begin line to an end line, with no second begin line after it |
| ShellRc.ApplyThenRevertDisk | crates/engine/src/wiring.rs:44-116 | the same per file for a whole wiring over several files |
| ShellRc.ApplyDiskTwice | crates/engine/src/wiring.rs:44-56 | on the whole disk applying twice is applying once |
| ShellRc.PathBlockIsClean | crates/engine/src/wiring.rs:241-256 | the engine’s own PATH block holds no marker whenever no path entry holds a `#` |
| ShellRc.SharedMarkerExactly | crates/engine/src/wiring.rs:258-338 | the second of two blocks on one file is added, and is not there for its revert before that, if and only if the markers differ; with one marker its revert takes out the first block |
| ShellRc.PathBlocksCollide | crates/engine/src/wiring.rs:237-256 | two components with PATH entries: the second one’s never get into the file, and resetting it removes the first one’s |
| ShellRc.Files.Apply | crates/engine/src/wiring.rs:44-56 | the apply loop over a wiring’s blocks, the PATH block first |
| ShellRc.Files.Revert | crates/engine/src/wiring.rs:104-116 | the revert loop in the same order, with one note for every block found and what became of it |
| ShellRc.Files.ApplyShellRc | crates/engine/src/wiring.rs:258-275 | one block is appended unless its begin line is there; a missing file is created |
| ShellRc.Files.RevertShellRc | crates/engine/src/wiring.rs:277-338 | one block is cut out, or the file left alone with the reason |
| ShellShows.EveryBlockIsWritten | crates/engine/src/wiring.rs:258-275 | every block of a wiring whose markers were not on its file before stands in the file afterwards, word for word |
| ShellShows.PathIsWritten | crates/engine/src/wiring.rs:239-256 | a wiring with directories has one line for each of them, word for word, in one block of `~/.bashrc` |
| ShellShows.OldTextStays | crates/engine/src/wiring.rs:258-275 | what a file held before stays in front, untouched, whatever it was |
| ShellShows.RevertTells | crates/engine/src/wiring.rs:277-338 | told by where the lines stand: the span from the first begin line to the first end line after it is cut with its line feed, unless another begin line follows, and then nothing is |
| ShellShows.NoEndIsTold | crates/engine/src/wiring.rs:293-306 | a begin line without an end line behind it leaves the file alone and is reported |
| CommandFile.NormalLeaves | crates/agent-env/src/command.rs:57 | after the CRLF replacement a carriage return still stands before a line feed exactly where there had been two |
| CommandFile.ReadsBack | crates/agent-env/src/command.rs:66-93 | fence-free whole lines, the fence and a body parse back to that front matter and body |
| CommandFile.MarkdownRoundTripExactly | crates/agent-env/src/command.rs:56-141 | parsing the Markdown rendering of a parsed file gives the same value back if and only if the file holds no two carriage returns before a line feed |
| CommandFile.ParseText | crates/agent-env/src/command.rs:56-94 | the scan over the lines computes the parse, with its error for a missing closing fence |
| CommandFile.NoneLeft | crates/agent-env/src/command.rs:149 | the rendered body holds no `$ARGUMENTS`, wherever one might have been put together |
| CommandFile.PromptFileIsStable | crates/agent-env/src/command.rs:147-172 | for a file without two carriage returns before a line feed, CRLF files included, the prompt file parses, has an `invokable:` line, and renders to the same text again |
| PromptFiles.PromptStableExactly | crates/agent-env/src/command.rs:132-172 | the prompt file of any parsed command keeps its text under parsing and rendering, if and only if none of its carriage returns meets a line feed and no fence among its front-matter lines does harm |
| PromptFiles.PromptFileIsStableExactly | crates/agent-env/src/command.rs:56-172 | the same for a file that parses, and no file without doubled carriage returns before a line feed is affected |
| PromptFiles.FenceSlipsIn | crates/agent-env/src/command.rs:56-172 | a file whose front matter holds `---` with two carriage returns: it parses, and its prompt file reads back as another one |
| CommandFile.RenderPromptFile | crates/agent-env/src/command.rs:147-172 | the preamble built line by line is the specified one |
| PromptShows.PromptShows | crates/agent-env/src/command.rs:147-172 | the prompt file is the non-blank lines of the front matter in their order, `invokable: true` behind them exactly when none of them says `invokable:` at any indentation, and the substituted body below the closing fence |
| PromptShows.FirstIsReplaced | crates/agent-env/src/command.rs:149 | the first `$ARGUMENTS` becomes `{{{ input }}}`, what stands before it stays, and so on behind it |

## Left out

- Commands and MCP servers in the sync driver: they repeat the skills pattern with weaker prune gating.
- The action log and the `updated_at` memo of the sync, and read errors while hashing: they decide nothing that is modelled.
- Symbolic links in skill trees, nested destinations, and failing directory removals while pruning.
- `relativize_dest` and `resolve_dest`: the lock's destination is taken to name the first destination again.
- The rosters of a run are sets: the code keeps them as lists and sorts and deduplicates them at the end.
- Registry.Load: reading the manifest directory, TOML errors and the lint against `~`, which also fail a load; the model starts from parsed components.
- Executor.Run: the trace is that of the steps. The events of the reset gates (the probes of the reverse-dependents, the refusals and the finished events of refused targets) are not in it; a reset halted by its gates has an empty trace and its refusal in the summary.
- Executor.RunRemove: the same, as it is the reset half of `Executor.Run`.
- Executor.ProbeDependents: the Detect probe of a reverse-dependent has one answer per component for the whole gate evaluation, because detect hooks are required to be read-only.
- Device guards, process spawning, timeouts, sudo pre-warming, system-scope wiring, `data_paths` and the add-repo pipeline: operating-system effects. What a guard and a wiring answer is a parameter.
- Sampler.NoLostWakeup: the atomics are sequentially consistent in the model, while the code loads and stores them with relaxed ordering; and the generation is an unbounded number, while the code wraps at 64 bits.
- Extend.LoadValueRecursive: fetching and parsing are a parameter that answers or fails, error texts are reduced to their kind, and tagged YAML values are not part of the model.
- SkillRest.SyncConverges: the fetched contents of an entry depend on the entry and do not change between the runs.
- SkillConfigs.ConvergesExactly: asks that the `skills` fields are lists or `*` and that entries of different sources list different names; that `OneWay` configs converge needs neither.
- CommandFile.PromptFileIsStable: a sufficient condition on the file; the exact one, on what was parsed, is `PromptFiles.PromptStableExactly`.
- Inherit.LoadedValueIsLast: asks the files that are merged to be mappings; one that is not replaces what was merged before it, or is replaced (`Inherit.NoMappingIsReplaced`).
- Inherit.LoadedEntryIsLast: asks them to be tidy; in a list that repeats an identity the first entry of the base stays.
- SkillCounts.TurnCounts: asks that the list names no skill twice; repeats are counted as `SkillOutcome.EveryItemIsCounted` says.
- ConfigSelectors.InsertedTextTells: asks names that read as themselves, without quotes and white space at their ends; others are written as they are.
- ShellRc.ApplyThenRevertDisk: a file is its name as written; that `~/.bashrc` and its expanded path are one file is not modelled.
- Extend.NestedLoadIsFlatMerge: asks every file but the root to be tidy; merging is shown to depend on the nesting exactly when a middle value is not.
- ConfigEdit.RemoveRefinesDelete: stated on lines; on texts it holds through `ConfigFile.RemoveItem`, whose result is those lines joined.
- ConfigFile.InsertTextRefinesAppend: for texts with no doubled carriage return before a line feed and none at the end; any other text is edited too, and its lines may read differently afterwards.
- SpecLock.Generate: serialising a component to JSON is a library's work; a spec is its JSON value, with numbers as their printed token.
- CanonicalJson.CanonicalDecides: which characters the debug format prints as they are is a parameter; the result holds for every choice.
- ShellRc.Files.Revert: backups and the note about foreign PATH lines; reading and writing a file always succeed.
- CommandFile.RenderPromptFile: the Gemini TOML format, the plain format and the file names derived from a command's name are small and not modelled.
- The summary fields of the graph report (roots, leaves, groups, largest degrees) and the DOT and JSON exports: they would only add easy members.
- The preset path tables of the agents, the command line and the graphical interface: constants and presentation.
