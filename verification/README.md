# Loopora: verified models

Loopora runs agent workflows: strategy steps are claimed, executed by a host agent and submitted; parallel groups
read a common snapshot; controls fire on signals; adapters install files into a project that belongs to somebody
else. This project models the parts of that code with the most state and branching and proves what callers rely on.
Each module states first what the code computes (a function, or the new state of a method) and then, separately,
what that means.

| modules | what they cover |
|---|---|
| `Digraph`, `TarjanSearch`, `Tarjan`, `ImportCycles` | strongly connected components and the import-cycle figures |
| `ParallelGroups`, `GroupSnapshots`, `ClaimInputs`, `ClaimState` | bounds and events of parallel groups; the cached snapshot a group reads from, and exactly what a claim reads |
| `HostConfig`, `AdapterFiles`, `AdapterLifecycle`, `AdapterOwnership`, `AdapterSafety`, `AdapterUninstall`, `AdapterStatus`, `AdapterCommands`, `LawfulHost` | adapter install, status and uninstall over a project's files, with the hook in the Claude Code settings |
| `JsonPaths`, `ResultSchema`, `ResultIssues`, `IssuePlaces`, `IssueOrder`, `ResultScaffold`, `EnumRules`, `PrintedNulls`, `ScaffoldFill` | result validation, result scaffolds, and the paths in repair hints |
| `WorkflowLints`, `WorkflowFlow`, `WorkflowHandoffs`, `LintReports` | lints that make evidence flow explicit, and the handoff paths they guarantee |
| `ControlQueue`, `ControlLimits`, `ControlService` | signal controls, their fire counts, their queue and its service |
| `RoleHydration`, `HydrationLaws`, `HydrationFields` | roles completed from definitions over one shared prompt map |
| `DispatchGate`, `DispatchLaws` | the proof of dispatch submitted with a result |
| `Options`, `PyText`, `RawValues` | optional values, Python's `str.strip`, and JSON values as the code reads them |

Conventions. Objects whose fields the code updates are classes (`Tarjan.Traversal`, `ClaimState.RunState`,
`AdapterCommands.Project`, `ControlQueue.ControlRun`, `RoleHydration.Hydration`); their methods are proved against
functions of the old state. Exceptions are outcomes or empty results. JSON settings are maps, because only their value
matters; submitted results keep their field order, because reports and null paths are listed in that order. Library
calls (JSON parsing and printing, SHA-256, the clock, the archetype and prompt-reference normalisers) are parameters;
where a proof needs a property of them it is required by name: `AdapterFiles.Lawful` says that parsing undoes printing
and that the hash is injective on non-empty text and trimmed. `LawfulHost` exhibits functions that keep these laws.

Places where the code does less than one might expect, each with a concrete input and the exact condition:

- The settings check lets a JSON null under `hooks` or `hooks.SessionStart` pass, and the merge then refuses it, after
  the templates are written (`MergeRefusedOnlyByNull`, `MergeCanBeRefusedLate`).
- Uninstall deletes a user's empty file at a template path when there is no manifest entry for it, because a missing
  entry and an empty text share the empty hash (`UninstallAndEmptyFile`, `EmptyUserFileIsLost`).
- Install followed by removal does not give back an empty `hooks` object (`RoundTrip`, `EmptyHooksAreLost`).
- A Guide without an id silences one Builder lint and is invisible to the other (`BlankGuideHidesReviews`,
  `BlankGuideExample`).
- Silent lints do not put the latest Builder on the path to the GateKeeper (`LatestBuilderOnPath`,
  `LatestBuilderNamed`, `LatestBuilderLeftOut`).
- A second hydration can fail where the first succeeded, when a definition's own values are ones the normalisers
  reject (`HydrateAgain`, `SecondHydrationCanFail`).
- Two nulls can share a printed path through a field name that has a dot in it or ends in an index in brackets
  (`SplitsWhen`, `PrintedOnce`, `SplitNamesCollide`, `PrintedTwice`).

## Model

| member | source | states |
|---|---|---|
| Digraph.ReachIsConnects | scripts/complexity_budget.py:154-161 | being in every edge-closed set that holds x is the same as being reachable from x by a walk between keys |
| TarjanSearch.PushKeepsInv | scripts/complexity_budget.py:149-153 | numbering a node and putting it on the stack keeps the search invariant, provided every open node reaches it |
| TarjanSearch.ScanSeesStack | scripts/complexity_budget.py:160-161 | lowering the link to the number of a target on the stack accounts for that target |
| TarjanSearch.ScanSeesVisit | scripts/complexity_budget.py:157-159 | lowering the link to that of a target just visited accounts for it and for all nodes its visit left on the stack |
| TarjanSearch.RetireKeepsInv | scripts/complexity_budget.py:162-163 | a node whose link is below its number stays on the stack and still leads to an open node below |
| TarjanSearch.SegmentMutual | scripts/complexity_budget.py:162-171 | when link and number agree, every node above on the stack and the node reach each other |
| TarjanSearch.CloseKeepsLayers | scripts/complexity_budget.py:164-171 | filing that part as the next component leaves no edge from an earlier component to a later one |
| TarjanSearch.ReachLowersRank | scripts/complexity_budget.py:171 | a walk from a filed node stays among components of the same or a smaller number |
| TarjanSearch.NothingLeft | scripts/complexity_budget.py:173-176 | when no visit is open, nothing is left on the stack |
| Tarjan.Traversal.Visit | scripts/complexity_budget.py:147-171 | a visit terminates, numbers everything newly reachable, leaves the older stack as it was, and keeps the invariant |
| Tarjan.Traversal.ScanTargets | scripts/complexity_budget.py:154-161 | in whatever order targets come, all of them are accounted for at the end of the loop |
| Tarjan.Traversal.Emit | scripts/complexity_budget.py:164-171 | the part of the stack from the node up is popped and becomes the next component |
| Tarjan.Traversal.PopComponent | scripts/complexity_budget.py:165-170 | the loop pops exactly down to the node and lists each popped node once |
| Tarjan.SearchDecomposes | scripts/complexity_budget.py:139-176 | a search that filed every key has computed the partition into mutually reachable classes, in reverse topological order |
| Tarjan.StronglyConnectedComponents | scripts/complexity_budget.py:139-176 | for every finite graph: non-empty disjoint components without repeats cover the keys; two keys share one exactly when each reaches the other; an edge between components leads to an earlier one |
| ImportCycles.ClassesAgree | scripts/complexity_budget.py:195 | components of more than one node are the classes of more than one mutually reachable module |
| ImportCycles.CyclicCounts | scripts/complexity_budget.py:195-196 | the list of such components has as many entries as there are classes |
| ImportCycles.CyclicLargest | scripts/complexity_budget.py:196 | the reported maximum is the size of a largest class |
| ImportCycles.NoCycleClasses | scripts/complexity_budget.py:187-196 | without self-edges there is no class of several modules exactly when the import graph has no cycle |
| ImportCycles.ImportGraphKeys | scripts/complexity_budget.py:180-187 | the graph's keys are the module names, and no module imports itself |
| ImportCycles.EdgesAre | scripts/complexity_budget.py:180-187 | there is an edge from x to y exactly when x and y are different modules and the last file named x imports y |
| ImportCycles.CyclesAre | scripts/complexity_budget.py:180-195 | so the graph has no cycle exactly when no chain of modules, the last file of each importing the next, comes back to its start |
| ImportCycles.SourceStructure | scripts/complexity_budget.py:179-196 | the four figures count files with an import or assignment and nothing else but docstrings, classes of modules importing each other (none exactly when no chain of imports closes), the size of the largest set of modules each of which imports every other directly or not, and modules |
| ParallelGroups.Bounds | src/loopora/agent_native_parallel_groups.py:166-173 | for any group name, the two loops stop where the steps before and after a position cease to have that group; the ids of the stretch between |
| ParallelGroups.StartOfFacts | src/loopora/agent_native_parallel_groups.py:167-169 | the steps from the start found up to the position have the group, and the one before does not |
| ParallelGroups.EndOfFacts | src/loopora/agent_native_parallel_groups.py:170-172 | the same on the other side |
| ParallelGroups.RunIsMaximal | src/loopora/agent_native_parallel_groups.py:166-173 | that stretch contains the step, has one group throughout, and cannot be extended on either side |
| ParallelGroups.RunIsUnique | src/loopora/agent_native_parallel_groups.py:166-173 | any maximal stretch is the one found from each of its members |
| ParallelGroups.EventPayload | src/loopora/agent_native_parallel_groups.py:151-163 | for any group name, the payload lists that name and the positions and ids of the whole stretch |
| ParallelGroups.StartedPayload | src/loopora/agent_native_parallel_groups.py:121-133 | a started payload is given exactly to the first step of a stretch |
| ParallelGroups.FinishedPayload | src/loopora/agent_native_parallel_groups.py:136-148 | a finished payload is given exactly to a step not followed by its group |
| ParallelGroups.AnnouncedWhen | src/loopora/agent_native_parallel_groups.py:121-148 | a step announces a start exactly when it has a group the step before has not, an end exactly when it has one the step after has not, and nothing without a group |
| ParallelGroups.OneStartOneFinish | src/loopora/agent_native_parallel_groups.py:121-163 | each stretch yields one started and one finished payload, equal, with the iteration, the group and exactly its steps in order |
| GroupSnapshots.NothingFromSiblings | src/loopora/agent_native_parallel_groups.py:80-116 | what a group member reads has no output under a name any member files under, no handoff of a member, no evidence of a member from this iteration |
| ClaimInputs.InputsAre | src/loopora/agent_native_parallel_groups.py:20-116 | besides, a member reads every live output not filed under a name members use, with its live value, the handoffs of non-members and the ledger objects not a member's of this iteration, each once and in order; a step without group reads the live maps and handoffs and gets no evidence list |
| ClaimInputs.SnapshotIsCurrent | src/loopora/agent_native_parallel_groups.py:70-78 | whatever is cached, a claim gets a snapshot of this iteration and of its own stretch, and the cached one if it is of these |
| ClaimInputs.ClaimsReadExactly | src/loopora/agent_native_parallel_groups.py:20-118 | in any run a claim is handed exactly those inputs, through the cache or not |
| ClaimInputs.SubmitIsFiled | src/loopora/service_runner_step_commit.py:91-96 | after a submit each name of the step has its output, all other names keep theirs, and handoff and evidence are the last |
| ClaimInputs.NextClaimReads | src/loopora/service_runner_step_commit.py:91-96 | the next claim reads the submitted output under each of its names that no member of the claimed step's group uses, and the handoff |
| ClaimInputs.SnapshotLasts | src/loopora/agent_native_state.py:89-106 | after a submit the snapshot is kept exactly when the next step belongs to the same stretch |
| ClaimInputs.OutputsAre | src/loopora/service_agent_native_iteration.py:37-63 | over any run, the output under a step id, a role or an archetype is the one last submitted in this iteration under that name, and there is none without such a submit |
| ClaimInputs.HandoffsAre | src/loopora/service_agent_native_iteration.py:37-63 | over any run, the handoffs are those of this iteration's submits, one each, in order |
| ClaimInputs.LedgerIs | src/loopora/service_agent_native_submit.py:505-532 | over any run, the ledger is that of the start and then one line for each submit, in order, under its iteration and step |
| ClaimInputs.IterationIs | src/loopora/service_agent_native_iteration.py:37-63 | the iteration number counts the iteration changes |
| GroupSnapshots.SubmitUnseen | src/loopora/service_runner_step_commit.py:91-96 | a submit of a group member changes nothing in the snapshot of its group |
| GroupSnapshots.ApplyCoherent | src/loopora/agent_native_parallel_groups.py:70-78 | every claim, submit, drop and iteration change keeps a cached snapshot equal to the recomputed one |
| GroupSnapshots.RunCoherent | src/loopora/agent_native_state.py:89-106 | that holds after every run of such operations, in whatever order steps are claimed |
| GroupSnapshots.CachedClaimIsLive | src/loopora/agent_native_parallel_groups.py:56-118 | a claim reads through the cache what it would read without it, so never a snapshot of another iteration or stretch |
| GroupSnapshots.GroupSnapshotStands | src/loopora/agent_native_parallel_groups.py:80-116 | over any run, while only steps of a stretch submit in an iteration, the snapshot computed for it stays the same |
| GroupSnapshots.MembersReadTheSame | src/loopora/agent_native_parallel_groups.py:39-53 | over any run with unique step ids, two members of a group claimed in one iteration read the same inputs exactly when no step with an id from outside the group submitted between the two claims |
| GroupSnapshots.MembersOnlyReadTheSame | src/loopora/agent_native_parallel_groups.py:39-53 | over any run, they read the same inputs if only members submitted between |
| GroupSnapshots.HandoffsGrow | src/loopora/agent_native_parallel_groups.py:102-106 | the handoffs a group reads only become more within an iteration, and do so with each foreign submit |
| GroupSnapshots.MembersReadTheSameInOrder | src/loopora/agent_native_parallel_groups.py:39-53 | when steps are claimed in workflow order, all members of a group read the same inputs in one iteration |
| ClaimState.RunState.GroupSnapshot | src/loopora/agent_native_parallel_groups.py:56-118 | returns the cached snapshot when iteration, group and bounds match, and otherwise caches a new one; from a state any run reaches, it holds exactly the live outputs, handoffs and evidence that are not members' |
| ClaimState.RunState.ClaimInputs | src/loopora/agent_native_parallel_groups.py:20-53 | a step without a group empties the cache and reads the live outputs and handoffs; a group member reads exactly what is not its members' |
| ClaimState.RunState.Claim | src/loopora/service_agent_native_claim.py:136-202 | claiming hands out these inputs and records the active step |
| ClaimState.RunState.UpdateSnapshotAfterSubmit | src/loopora/agent_native_state.py:89-106 | the cache is emptied unless the next step is in the same group |
| ClaimState.RunState.Submit | src/loopora/service_agent_native_submit.py:505-532 | a submit files the output under step, role, runtime role and archetype, appends handoff and evidence, and moves the step index unless the step is a control step |
| ClaimState.RunState.NextIteration | src/loopora/service_agent_native_iteration.py:37-63 | the next iteration starts with no outputs, no handoffs and no cache |
| HostConfig.HasHook | src/loopora/agent_adapter_host_config.py:191-207 | true exactly when some group has a handler whose trimmed command is Loopora's |
| HostConfig.LooporaIs | src/loopora/agent_adapter_host_config.py:171-175 | a handler is Loopora's exactly when it is an object whose command is a text that is the hook's command with white space around it |
| HostConfig.TotalFinds | src/loopora/agent_adapter_host_config.py:191-207 | the number of Loopora handlers is positive exactly when some handler of some group is one |
| PyText.StripIs | src/loopora/agent_adapter_host_config.py:174 | trimming takes the white space at both ends of a text and nothing else |
| HostConfig.RemoveHook | src/loopora/agent_adapter_host_config.py:154-188 | removes Loopora handlers, groups left without handlers, and then an empty `SessionStart` and `hooks` |
| HostConfig.InstallHook | src/loopora/agent_adapter_host_config.py:92-102 | removal followed by appending one group, or a refusal |
| HostConfig.InstallRefused | src/loopora/agent_adapter_host_config.py:92-102 | the merge is refused exactly when `hooks` or `SessionStart` is present with another type; the earlier check lets exactly the two null cases pass |
| HostConfig.RemovalIsFinal | src/loopora/agent_adapter_host_config.py:154-188 | removal leaves no Loopora handler and is idempotent |
| HostConfig.RemovalRestores | src/loopora/agent_adapter_host_config.py:154-188 | removal changes nothing exactly for settings without Loopora handlers, empty handler lists, and empty containers it would drop |
| HostConfig.InstallLeavesOne | src/loopora/agent_adapter_host_config.py:92-102 | after an install there is one Loopora handler, behind the user's groups in their order |
| HostConfig.InstallTwice | src/loopora/agent_adapter_host_config.py:92-102 | a second install gives equal settings |
| HostConfig.RemoveUndoesInstall | src/loopora/agent_adapter_host_config.py:105-118 | removal after install gives what removal alone gives, except that an empty `hooks` disappears |
| HostConfig.RoundTrip | src/loopora/agent_adapter_host_config.py:92-118 | install then removal restores the settings exactly when they had no `hooks`, or a non-empty one free of Loopora handlers, empty handler lists and an empty `SessionStart` |
| HostConfig.EmptyHooksAreLost | src/loopora/agent_adapter_host_config.py:182-188 | settings with an empty `hooks` object come back without it |
| HostConfig.UserItemsKept | src/loopora/agent_adapter_host_config.py:163-180 | removal keeps every handler and entry that is not Loopora's, in order |
| AdapterFiles.HashInjective | src/loopora/agent_adapter_managed_files.py:202-205 | hashes agree exactly when texts do, and the empty text alone has the empty hash |
| AdapterFiles.NewManifestFacts | src/loopora/agent_adapter_manifest.py:75-117 | a written manifest lists exactly the template paths, its lookup gives each template's hash, and a first one carries the present time |
| AdapterOwnership.OwnedIsOurs | src/loopora/agent_adapter_managed_files.py:156-158 | a file counts as owned exactly when it is a text that contains the marker, or whose hash is the non-empty one of the first manifest entry for its path |
| AdapterOwnership.PathsAreListed | src/loopora/agent_adapter_manifest.py:101-106 | the manifest paths are the non-empty trimmed paths of the objects in its file list |
| AdapterOwnership.RemovableIs | src/loopora/agent_adapter_managed_files.py:139-163 | the files removed as obsolete are exactly the owned ones that have no template and are obsolete or listed by the manifest |
| AdapterOwnership.SettingsPassIs | src/loopora/agent_adapter_host_config.py:138-145 | the settings check fails exactly for Claude Code settings that are unreadable, no object, or have `hooks` or `SessionStart` of a wrong type other than null |
| AdapterOwnership.RefusalsAre | src/loopora/agent_adapter_lifecycle.py:241-243 | each of the three refusals happens exactly when some file, or the settings, meets its raw condition and the earlier checks found nothing |
| LawfulHost.SomeHostIsLawful | src/loopora/agent_adapter_managed_files.py:202-205 | the laws asked of JSON text, hashing and printing can be kept together: a text for every JSON value that reads back, and an injective trimmed hash |
| LawfulHost.InstallIsPossible | src/loopora/agent_adapter_lifecycle.py:234-263 | with them, a small adapter installs into an empty project |
| AdapterSafety.InstallTouchesOnlyOwned | src/loopora/agent_adapter_lifecycle.py:234-263 | whether install succeeds or is refused, a changed or removed file other than manifest and settings was a text that contains the marker or has the non-empty hash of the first manifest entry for its path |
| AdapterSafety.InstallKeepsOthers | src/loopora/agent_adapter_lifecycle.py:234-263 | files named neither by the adapter nor by the old manifest are untouched |
| AdapterSafety.ChecksRefuseFirst | src/loopora/agent_adapter_lifecycle.py:241-243 | a refusal for a target changes nothing; one by the two later checks removes exactly the owned files at obsolete paths, in the same words, and leaves every other file |
| AdapterSafety.MergeRefusedOnlyByNull | src/loopora/agent_adapter_host_config.py:138-145 | after the checks, install is refused exactly for a null `hooks` or `SessionStart`, and the templates are then written |
| AdapterSafety.MergeCanBeRefusedLate | src/loopora/agent_adapter_lifecycle.py:243-257 | such a late refusal happens on a project with only `{"hooks": null}` |
| AdapterSafety.InstallSettles | src/loopora/agent_adapter_lifecycle.py:234-263 | a successful install leaves all templates in place, no other obsolete file, a matching manifest, and the hook once |
| AdapterSafety.InstalledMeans | src/loopora/agent_adapter_lifecycle.py:72-150 | the status is `installed` exactly when there is a manifest listing only templates, every template has its text, no other obsolete file exists, and for Claude Code the hook is in mergeable settings |
| AdapterStatus.StatusesAre | src/loopora/agent_adapter_lifecycle.py:72-150 | the status is an error exactly for a bad manifest, a file in the way that is not owned, or unmergeable settings beside a manifest; otherwise an update is due, with a manifest, exactly when a file is missing or outdated or the hook is gone, and without one exactly when all templates are in place or some file has the marker; not installed means no manifest |
| AdapterSafety.InstallReportsInstalled | src/loopora/agent_adapter_lifecycle.py:264-269 | every successful install ends with status `installed` |
| AdapterSafety.SettledInstall | src/loopora/agent_adapter_lifecycle.py:234-263 | installing into such a project succeeds, changes no other file, and keeps the settings as a JSON value |
| AdapterSafety.ManifestSettles | src/loopora/agent_adapter_manifest.py:75-86 | the manifest an install leaves is the one the next install would write |
| AdapterSafety.SecondInstall | src/loopora/agent_adapter_lifecycle.py:234-263 | a second install leaves every file the same, and the settings equal as a JSON value |
| AdapterUninstall.UninstallRemovesExactly | src/loopora/agent_adapter_lifecycle.py:295-312 | besides manifest and settings, uninstall removes exactly the readable managed files with marker, manifest hash or template hash |
| AdapterUninstall.UninstallTakes | src/loopora/agent_adapter_lifecycle.py:295-312 | in raw words: a text at a template or manifest path that is owned, equals its template, or is empty and has no template or no recorded hash |
| AdapterUninstall.UninstallEnds | src/loopora/agent_adapter_lifecycle.py:314-322 | afterwards the manifest is gone and the settings hold what removal leaves, the file going exactly when that is nothing; unreadable settings stop it before both |
| AdapterUninstall.UninstallKeepsForeign | src/loopora/agent_adapter_lifecycle.py:304-312 | a non-empty file without marker and matching hash is kept |
| AdapterUninstall.UninstallAndEmptyFile | src/loopora/agent_adapter_lifecycle.py:304-308 | an empty file at a managed path is removed exactly when the marker is empty, the manifest has no hash for it, or it has no template |
| AdapterUninstall.EmptyUserFileIsLost | src/loopora/agent_adapter_lifecycle.py:304-308 | with no manifest a user's empty file at a template path is deleted |
| AdapterUninstall.InstallThenUninstall | src/loopora/agent_adapter_lifecycle.py:234-332 | after both, templates, obsolete files and manifest are gone, the hook is out of the settings, and all other files are as before |
| AdapterUninstall.FreshRoundTrip | src/loopora/agent_adapter_lifecycle.py:234-332 | with none of the adapter's paths present, install succeeds and uninstall gives back the original files |
| AdapterCommands.Project.TargetsReplaceable | src/loopora/agent_adapter_managed_files.py:171-192 | passes exactly when every file at a template path equals its template, contains the marker, or has the non-empty hash of the first manifest entry for the path |
| AdapterCommands.Project.RemoveObsolete | src/loopora/agent_adapter_managed_files.py:139-168 | unlinks exactly the obsolete files that are owned in those words, and reports a conflict exactly when another file is at an obsolete path |
| AdapterCommands.Project.WriteTemplates | src/loopora/agent_adapter_lifecycle.py:245-256 | afterwards each template path holds its template |
| AdapterCommands.Project.WriteTemplate | src/loopora/agent_adapter_lifecycle.py:246-250 | the file holds the template afterwards, and no other file changes |
| AdapterCommands.Project.InstallHost | src/loopora/agent_adapter_host_config.py:92-102 | writes the merged settings, or nothing when the merge is refused |
| AdapterCommands.Project.WriteManifest | src/loopora/agent_adapter_lifecycle.py:258-263 | the manifest file holds the new payload, rewritten only when it differs |
| AdapterCommands.Project.Install | src/loopora/agent_adapter_lifecycle.py:234-278 | the steps in order give the outcome and files of the specification; each refusal by the first two checks has its raw condition, only owned files change besides manifest and settings, and success means status `installed` |
| AdapterCommands.Project.ReadStatus | src/loopora/agent_adapter_lifecycle.py:72-150 | the loop over files, in any order, gives the verdict read off the set of file states |
| AdapterCommands.Project.Uninstall | src/loopora/agent_adapter_lifecycle.py:281-332 | the files removed and left are those of the specification |
| JsonPaths.DecimalRoundTrip | src/loopora/cli_agent_submit_repair_results.py:119-126 | a printed index is a non-empty run of digits that reads back to it |
| JsonPaths.PathSegments | src/loopora/cli_agent_submit_repair_results.py:119-126 | the scan collects the matches of the path pattern from left to right |
| JsonPaths.StepsReadBack | src/loopora/agent_native_result_schema.py:45-57 | a path printed with readable names parses to the steps taken |
| JsonPaths.PathReadBack | src/loopora/cli_agent_submit_repair_results.py:119-126 | a printed path parses back to its steps exactly when every name is a non-empty run of letters, digits, underscores and hyphens |
| ResultSchema.Validate | src/loopora/agent_native_result_schema.py:60-75 | the recursive validator returns the specified issues, in order |
| EnumRules.TypeNames | src/loopora/agent_native_result_schema.py:6-21 | each kind of value has its own type name |
| EnumRules.MatchesWhen | src/loopora/agent_native_result_schema.py:24-34 | a known type name takes exactly the values of that name, `number` integers too, and any other name takes everything |
| EnumRules.EqualIsAlike | src/loopora/agent_native_result_schema.py:68-70 | the comparison behind an enum: null and strings by identity, booleans and numbers by value, arrays item by item, objects by name, and nothing else |
| EnumRules.TextAllowed | src/loopora/agent_native_result_schema.py:68-70 | a string or null is allowed exactly when it is listed |
| EnumRules.NumberAllowed | src/loopora/agent_native_result_schema.py:68-70 | a boolean or number is allowed exactly when a boolean or number of the same value is listed |
| EnumRules.EnumRejects | src/loopora/agent_native_result_schema.py:65-70 | the enum issue is raised exactly when nothing listed is like the value |
| IssueOrder.ObjectOrder | src/loopora/agent_native_result_schema.py:36-47 | an object reports its enum issue, then missing names, then extra ones in code-point order if it is closed, then its properties |
| IssueOrder.MissingOrder | src/loopora/agent_native_result_schema.py:39-41 | missing names are reported in the order required, one issue for each mention |
| IssueOrder.PropertyOrder | src/loopora/agent_native_result_schema.py:45-47 | the issues of the properties are consecutive parts, one for each in the order of the schema |
| IssueOrder.ItemOrder | src/loopora/agent_native_result_schema.py:54-57 | the issues of the items are consecutive parts in the order of the array |
| ResultSchema.CollectObjectIssues | src/loopora/agent_native_result_schema.py:36-47 | missing names, then extra names in alphabetical order, then the issues below each property |
| ResultSchema.CollectArrayIssues | src/loopora/agent_native_result_schema.py:50-57 | the issues of each item under its index |
| ResultIssues.SilentIffConforms | src/loopora/agent_native_result_schema.py:36-75 | no issues exactly for values that conform, said without order or reports |
| IssuePlaces.SchemaNodeAtPath | src/loopora/cli_agent_submit_repair_results.py:107-117 | the loop returns the schema node found by following the parsed steps |
| ResultIssues.ExtrasReported | src/loopora/agent_native_result_schema.py:42-44 | the names a closed object may not have are each reported, in code-point order |
| IssuePlaces.Locate | src/loopora/agent_native_result_schema.py:36-75 | every issue names a place the validator reaches, and the value there fails the schema node looked up there in the way it says |
| IssuePlaces.Reported | src/loopora/agent_native_result_schema.py:36-75 | whatever is wrong at a place the validator reaches is reported |
| IssuePlaces.IssuesAreComplaints | src/loopora/agent_native_result_schema.py:36-75 | so the issues are exactly these complaints |
| IssuePlaces.IssueReadBack | src/loopora/cli_agent_submit_repair_results.py:107-126 | for type and enum issues, parsing the printed path finds the rejected value and the sub-schema that rejected it |
| ResultScaffold.ListedIsAllowed | src/loopora/agent_native_result_schema.py:68-70 | a value listed in an enum is accepted by it, under Python's equality |
| ResultScaffold.CollectNullPaths | src/loopora/cli_agent_submit_repair_results.py:81-91 | appends the printed path of each null, in order |
| ResultScaffold.NullsAreNulls | src/loopora/cli_agent_submit_repair_results.py:81-91 | a path is collected exactly when the value has a null there |
| ResultScaffold.NullsOnce | src/loopora/cli_agent_submit_repair_results.py:81-91 | each null is collected once |
| ResultScaffold.ScaffoldOrder | src/loopora/agent_native_result_schema.py:83-88 | a scaffold has the required names first and then the other properties, each where it appears first |
| PrintedNulls.SplitsWhen | src/loopora/cli_agent_submit_repair_results.py:86-91 | a field name can be read as a shorter name followed by steps exactly when it has a dot in it or ends in an index in brackets |
| PrintedNulls.PrintedOnce | src/loopora/cli_agent_submit_repair_results.py:81-91 | in a value without such names no two nulls share a printed path |
| PrintedNulls.SplitNamesCollide | src/loopora/cli_agent_submit_repair_results.py:81-91 | every such name occurs in a value with distinct field names in which two nulls share a printed path |
| PrintedNulls.PrintedTwice | src/loopora/cli_agent_submit_repair_results.py:86-88 | for example "a.b" beside "a" |
| ScaffoldFill.ScaffoldDistinct | src/loopora/agent_native_result_schema.py:78-92 | a scaffold never has a field name twice in one object |
| ScaffoldFill.FilledScaffoldAccepted | src/loopora/agent_native_result_schema.py:36-92 | with enums on leaves only, a filled scaffold draws no issue exactly when each leaf accepts its answer and every closed object declares the names it requires |
| ScaffoldFill.NullIssueReported | src/loopora/agent_native_result_schema.py:60-92 | whatever a leaf has against null is reported for the unfilled scaffold |
| ScaffoldFill.ScalarNullReported | src/loopora/agent_native_result_schema.py:60-92 | each null at a string, boolean, integer or number leaf is reported as a type issue |
| ScaffoldFill.ScaffoldIssueAtNull | src/loopora/agent_native_result_schema.py:36-92 | with enums on leaves, every issue of an unfilled scaffold sits at a collected null |
| ScaffoldFill.ScaffoldIssuesAre | src/loopora/agent_native_result_schema.py:36-92 | and, with required names declared, the issues are exactly those the leaves have against null |
| WorkflowLints.ReviewStepsSinceLatestBuilder | src/loopora/bundle_semantic_workflow.py:15-34 | the two passes list the reviews with an id since the latest Builder, with Guides when asked |
| WorkflowLints.LintReviewBuilder | src/loopora/bundle_semantic_workflow.py:126-150 | the scan reports, in order, what each review after a Builder lacks |
| WorkflowLints.LintGuideReview | src/loopora/bundle_semantic_workflow.py:153-183 | the same for Guides after reviews |
| WorkflowLints.LintReviewGateKeeper | src/loopora/bundle_semantic_lint.py:205-236 | the same for finishing GateKeepers after reviews |
| WorkflowLints.LintBuilderReview | src/loopora/bundle_semantic_workflow.py:186-215 | the one-pass scan reports what each Builder after a review, without a Guide between, lacks |
| WorkflowLints.LintBuilderGuide | src/loopora/bundle_semantic_workflow.py:218-251 | the same for Builders after a Guide |
| WorkflowLints.LintBuilderReviewMemory | src/loopora/bundle_semantic_lint.py:118-148 | the memory issues of Builders after a review without a Guide |
| WorkflowLints.LintBuilderGuideMemory | src/loopora/bundle_semantic_lint.py:150-170 | the memory issues of Builders after a Guide |
| LintReports.LintReportsAre | src/loopora/bundle_semantic_workflow.py:126-251 | each of the seven lints reports exactly the issues to be told of some step, with their ids, archetypes and order, stated by positions in the workflow |
| LintReports.Archetypes | src/loopora/bundle_semantic_workflow.py:26 | reviews are inspectors and customs; a finishing step is a GateKeeper's |
| WorkflowFlow.ScannersAgree | src/loopora/bundle_semantic_workflow.py:15-34 | the ids the one-pass scanner keeps are those the two-pass helper finds |
| WorkflowFlow.BuilderLintsAre | src/loopora/bundle_semantic_workflow.py:186-251 | both Builder lints are silent exactly when every Builder meets a condition stated by positions alone |
| WorkflowFlow.BuildersNameReviews | src/loopora/bundle_semantic_workflow.py:186-251 | with ids everywhere: silent exactly when every Builder names every review since the previous Builder, and a Guide when there was one |
| WorkflowFlow.BlankGuideHidesReviews | src/loopora/bundle_semantic_workflow.py:186-251 | without ids everywhere: whatever a Builder names, silence makes it name all reviews with an id exactly when its Guides, if any, include one with an id, or there is no such review |
| WorkflowFlow.BlankGuideExample | src/loopora/bundle_semantic_workflow.py:199-209 | four steps with a blank Guide draw no issue although the Builder names nothing |
| WorkflowFlow.BuildersCarrySummary | src/loopora/bundle_semantic_lint.py:118-170 | both memory lints are silent exactly when every Builder after a review or Guide uses `summary_only` |
| WorkflowHandoffs.ReviewsNameBuilders | src/loopora/bundle_semantic_workflow.py:126-150 | silent exactly when every review after a Builder names and queries an earlier Builder |
| WorkflowHandoffs.GuidesNameReviews | src/loopora/bundle_semantic_workflow.py:153-183 | silent exactly when every Guide names and queries every earlier review of its segment |
| WorkflowHandoffs.GateKeepersNameReviews | src/loopora/bundle_semantic_lint.py:205-236 | silent exactly when every finishing GateKeeper names and queries every review and Guide since the latest Builder |
| WorkflowHandoffs.GateKeeperIssueNames | src/loopora/bundle_semantic_lint.py:227-235 | its issues list exactly the ids, and the archetypes, left out |
| WorkflowHandoffs.ReviewJoinsBuilder | src/loopora/bundle_semantic_lint.py:205-236 | with these lints silent, a review between a Builder and a finishing GateKeeper lies on a handoff path between them, and so do later Guides |
| WorkflowHandoffs.FirstBuilderReaches | src/loopora/bundle_semantic_workflow.py:126-251 | over workflows of any length with ids everywhere and a review in every round, handoffs lead from the first Builder to every later Builder and review, and to every finishing GateKeeper that follows a review since the latest Builder |
| WorkflowHandoffs.LatestBuilderOnPath | src/loopora/bundle_semantic_lint.py:205-236 | with the GateKeeper lint silent, a handoff path leads from the latest Builder to a finishing GateKeeper exactly when a review or Guide after it, or the GateKeeper, is handed its work directly or through steps of other kinds |
| WorkflowHandoffs.LatestBuilderNamed | src/loopora/bundle_semantic_lint.py:205-236 | when only reviews and Guides with ids lie between, exactly when one of them or the GateKeeper names the Builder |
| WorkflowHandoffs.LatestBuilderLeftOut | src/loopora/bundle_semantic_workflow.py:145-147 | a workflow with all lints silent in which no path leads from the latest Builder to the GateKeeper |
| ControlQueue.ControlRun.AppendControls | src/loopora/agent_native_controls.py:78-131 | the loop considers the matching controls in order: counts, queue and log change as specified |
| ControlQueue.ControlRun.BuildQueue | src/loopora/agent_native_controls.py:60-75 | over all raised signals, starting from the restored counts; the counts are saved |
| ControlQueue.ControlRun.ClaimPending | src/loopora/service_agent_native_iteration.py:176-229 | the queue is built once per iteration from the restored counts, malformed entries are skipped, and the next entry is claimed |
| ControlQueue.ControlRun.FinishIterationOrAdvance | src/loopora/service_agent_native_iteration.py:73-174 | after the last strategy step a claim serves a pending control step, again while it is not submitted, and otherwise moves to the next iteration |
| ControlService.EverythingServed | src/loopora/service_agent_native_iteration.py:73-229 | over any run of claims and submits with fixed controls, what was triggered is what has been completed and then what waits in the queue, in order; when an iteration ends, each trigger has been completed once |
| ControlService.ClaimsNext | src/loopora/service_agent_native_iteration.py:176-229 | a claim takes the first well-formed entry at or after the index, of the queue that is there or of a new one when the iteration has none, and nothing if there is no such entry |
| ControlLimits.OneEventEach | src/loopora/agent_native_controls.py:82-131 | a build appends one event per consideration, in order, and keeps the log before; only a control past its delay and with a known role triggers, one with an unknown role fails, and one before its delay is skipped |
| ControlLimits.QueueHoldsTriggered | src/loopora/agent_native_controls.py:119-131 | the queue holds what was triggered and nothing else, in order, for this iteration, with consecutive order numbers past the strategy steps |
| ControlLimits.OccasionsAre | src/loopora/strategy_controls.py:55-56 | a control is considered exactly for its own signal, when raised |
| ControlLimits.SignalsAre | src/loopora/strategy_controls.py:59-91 | a rejecting GateKeeper raises `gatekeeper_rejected` and a stalled iteration `no_evidence_progress`, and nothing else is raised |
| ControlLimits.OccasionOrder | src/loopora/agent_native_controls.py:60-85 | controls are considered for a rejection first, and for each signal in the order they are listed |
| ControlLimits.EventsHaveCause | src/loopora/agent_native_controls.py:60-131 | every new event is about a control of that signal, and the signal is raised |
| ControlLimits.EventPerControl | src/loopora/agent_native_controls.py:60-131 | with unique ids a build reports each control whose signal the two flags raise exactly once |
| ControlLimits.RunCounts | src/loopora/agent_native_runtime_context.py:43 | over any run from any stored counts, a count grows by one with each trigger and stops at the limit |
| ControlLimits.BoundedFiring | src/loopora/agent_native_controls.py:84-119 | from a fresh run a control with `max_fires_per_run` m triggers at most m times, once if m is zero, and the stored count is the number of triggers |
| ControlLimits.StoredCountBounds | src/loopora/agent_native_controls.py:134-139 | from any stored count a run adds no more triggers than the limit leaves, and none when it is malformed or negative |
| ControlLimits.SkipsAreTrue | src/loopora/agent_native_controls.py:97-103 | the log calls an event a skip for the limit m exactly when the control had by then triggered m times, or once if m is zero |
| ControlLimits.ConsideredOnce | src/loopora/service_agent_native_iteration.py:185-199 | however claims and submits follow each other, no control is reported twice for one signal in one iteration |
| ControlLimits.ReadyFires | src/loopora/agent_native_controls.py:97-131 | a control that is always ready fires on every occasion until what the stored count leaves of its limit is used up |
| RoleHydration.Hydration.HydrateField | src/loopora/asset_catalog.py:132-142 | a supplied field must agree canonically with the definition; a missing one is copied |
| RoleHydration.Hydration.HydrateFields | src/loopora/asset_catalog.py:123-130 | accepts exactly when all checked fields agree, and then every missing field, and no other, comes from the definition |
| RoleHydration.Hydration.HydratePrompt | src/loopora/asset_catalog.py:144-163 | adds the definition's prompt under a free reference, and conflicts exactly with a different one |
| RoleHydration.HydrateRoleSnapshots | src/loopora/asset_catalog.py:75-121 | the walk over the roles with one prompt map gives the specified roles and map, or a conflict |
| HydrationLaws.SucceedsIffConsistent | src/loopora/asset_catalog.py:75-163 | hydration succeeds exactly under a condition without order: definitions exist, fields agree, and prompts under one reference agree with each other and with the supplied one |
| HydrationLaws.HydratedFacts | src/loopora/asset_catalog.py:91-121 | on success supplied prompts are unchanged, every other entry was brought by a role, and roles are the completed ones |
| HydrationLaws.HydratedRolesAgree | src/loopora/asset_catalog.py:123-163 | each role with a definition then agrees with it on every checked field, and its prompt is the map's up to line ends and outer white space |
| HydrationFields.HydratedFields | src/loopora/asset_catalog.py:123-142 | a hydrated role has the supplied fields with their values, of ten named fields the missing ones from the definition or empty, and no others |
| HydrationFields.AgreesWhen | src/loopora/asset_catalog.py:132-172 | a role agrees with its definition exactly when each of eight named fields it supplies has the same value: two in normal form, the arguments to the letter, the others trimmed |
| HydrationFields.HydratedPrompts | src/loopora/asset_catalog.py:144-163 | the definition's prompt is then under the role's reference, up to line ends and outer white space, and a supplied one is unchanged |
| HydrationFields.PromptsAdded | src/loopora/asset_catalog.py:150-155 | every added prompt is literally that of a definition whose role refers to it |
| HydrationFields.NewlinesAre | src/loopora/asset_catalog.py:174-175 | for the comparison a carriage return, alone or before a line feed, becomes one line feed, and nothing else changes |
| HydrationLaws.HydrateAgain | src/loopora/asset_catalog.py:75-163 | hydrating the output changes nothing when the normalisers accept the values of every definition used, and fails otherwise |
| HydrationLaws.SecondHydrationCanFail | src/loopora/asset_catalog.py:132-142 | a definition saved with an archetype that is no longer accepted makes the second hydration fail |
| DispatchGate.AcceptedForBoth | src/loopora/agent_native_host_dispatch_validation.py:11-45 | a proof accepted for two claimed steps forces equal run, step, adapter and target agent, and equal positions wherever both record them |
| DispatchLaws.AcceptedWhen | src/loopora/agent_native_host_dispatch_validation.py:11-103 | a proof is accepted exactly when the role dispatch is usable, agent and mode are the demanded ones, inline is allowed, run, step, adapter and recorded positions match, no missing output is admitted and the version is readable |
| DispatchLaws.AcceptedProof | src/loopora/agent_native_host_dispatch_validation.py:49-65 | the recorded proof has the claim's run, step and adapter, the demanded agent, and mode, inline flag, attestation, version and positions as stated |
| DispatchLaws.MissingOutputRefused | src/loopora/agent_native_host_dispatch_validation.py:147-180 | a proof with one of the seven phrases of missing output in attestation, notes or trace notes is refused |
| DispatchLaws.SelfMadeRefused | src/loopora/agent_native_host_dispatch_validation.py:164-171 | so is one that names the main session and says, in whichever of the three texts, that it constructed the result |
| DispatchLaws.RunsFacts | src/loopora/agent_native_host_dispatch_validation.py:174-181 | squeezing the texts keeps every other character and leaves of white space only single blanks |
| DispatchLaws.AgentsAre | src/loopora/agent_native_role_dispatch.py:53-55 | which archetype, trimmed and in lower case, demands which agent |
| DispatchGate.TemplateAccepted | src/loopora/agent_native_result_template.py:123-146 | the unedited template is accepted for its own step exactly when the role dispatch is usable and takes its mode, ids are non-empty and trimmed, and positions are not negative |
| DispatchGate.TemplateProse | src/loopora/agent_native_host_dispatch_validation.py:147-180 | the template's attestation contains none of the rejected phrases |
| DispatchGate.GeneratedTemplateAccepted | src/loopora/agent_native_role_dispatch.py:31-50 | with the generated role dispatch, for any archetype, only ids and positions matter |
| DispatchGate.NeverInline | src/loopora/agent_native_host_dispatch_validation.py:33-34 | under a generated role dispatch no inline proof is accepted |
| DispatchGate.TemplateOfAnotherStep | src/loopora/agent_native_host_dispatch_validation.py:190-219 | the template of one step is accepted for another claim exactly when run, step, adapter, agent and both positions agree |

## Left out

- Real file access: temporary files, permissions, encodings, directories, removal of empty parents, and two paths naming one file. A project is a map from paths to texts or unreadable files.
- JSON text layout and key order in settings and manifests; only JSON values are compared. In the comparison of manifests Python takes `True` and `1` as equal, and the model does not; settings and manifests hold no NaN.
- The order of the removed, kept and conflicting paths that install and uninstall report; the model keeps them as sets or as a verdict. The summaries, next steps and per-file payloads in the answers are not modelled.
- Adapters that are not implemented, adapter names, project root lookup, and the template texts: a well-formed adapter has non-empty templates at trimmed paths.
- Reading Python source: parsing, the choice of import targets and the file list. A source file is its module name, its targets and the kinds of its statements.
- The schema as raw JSON: the model starts from the trimmed type name, the non-empty required names and the object-valued properties. Non-finite numbers are left out, and digits in the path pattern are ASCII.
- Resolution of a step's role to an archetype: workflow steps carry the archetype, trimmed ids and the sets their inputs name. The lints for parallel reviews, long chains and prose are not modelled.
- Claim planning, stale-step detection, step views, coverage and the run engine: in the group model a claim or submit is one operation on the fields it reads and writes.
- Hand-edited run state: queue index and queue iteration are the numbers the code writes. Malformed fire counts and queue entries are modelled. A run that ends at its iteration limit instead of moving on is not.
- Parsing of control delays, the clock and the payload texts of control events; elapsed time is an arbitrary function of the consideration.
- Hydration of a missing strategy source or of roles that are not a list, which pass through, and prompts that are not texts.
- The native trace copied into an accepted proof, which the gate does not judge, and lower-casing of letters outside ASCII.
