# Ari: verified models of its protocols and planners

Ari (the `VoiceCommand` application) keeps a directory of skills, plans and runs multi-step goals, talks
to language models and schedules work in the background. This project models the parts of it whose
correctness depends on many steps, many interleavings or many inputs, and proves what they promise.

Each model follows one part of the source. Objects whose methods update fields are classes, loops are
loops with invariants, and every such method is tied to a function of its inputs or of the old state; the
theorems are lemmas about those functions and about whole runs of them.

- **Skill update** (`SkillNames`, `SkillStore`, `SkillsDirectory`, `SkillInstall`, `SkillRecovery`). The
  skills directory is a map from folder names to folders, with an optional undo journal. Renames are
  atomic; deleting, copying and writing metadata may leave anything at the folder they work on. The
  directory records every disk it passes through, so that "the process dies here" means "stop at any
  element of the trace". Every call may also fail, and failures are counted. Names are compared exactly,
  an existing destination is a directory, and a package is not installed from its own folder. A recorded
  source is the one without the blanks around it.
- **Plan scheduling** (`PlanGraph`, `PlanAnnotation`, `PlanLayers`, `PlanBatches`, `PlanOrder`,
  `PlanResumed`, `PlanDependencies`). Resource conflicts become edges, edges become group numbers, numbers
  become batches. The resources recognised in a step's text are inputs.
- **Execution and resuming** (`PlanExecution`, `PlanResumption`). Cancel and interrupt events, conditions,
  guards and the outcome of a runner are arbitrary at every point where the code asks, and the user may
  cancel while a runner or a condition is at work.
- **JSON recovery** (`JsonText`, `JsonScan`, `PlannerJson`, `JsonRecovery`, `JsonTruncation`,
  `JsonRejection`, `JsonInverse`). `json.loads` is any partial function that reads back the printed values
  at hand. One that does so for every value with proper numerals and distinct keys exists, because the
  printer is injective, and it may answer every other text as it likes. The layout of the printed text
  (blanks after `[`, `,`, `:` and before `]`) is free.
- **Editing a file** (`EditFile`, `EditMatches`), on decoded text.
- **Conversation history** (`ConversationHistory`, `ConversationContext`, `SentContext`). The length of a
  serialised list of blocks is a parameter.
- **Recurring tasks** (`ScheduledTasks`, `ScheduleProperties`, `SchedulePromises`, `ProactiveScheduling`,
  `ScheduleRuns`). Time is whole seconds, a date is a day number. The clock is a parameter.
- **Task queue** (`TaskQueueSteps`, `AgentTaskQueues`, `TaskQueueRuns`, `TaskOutcomes`). One step per
  locked section, and one for every unlocked step of a worker between them; runs are arbitrary
  interleavings.
- **Learning metrics** (`Wilson`, `ComponentMetrics`, `LearningVerdict`, `MetricsLog`), over the reals;
  the square root is handed in as the nonnegative root.
- **Response cache** (`ResponseCaching`) and **event speeches** (`SpeechScheduling`, `SpeechRuns`,
  `SpeechPromises`), with the clock as a parameter.

## Where the code does something else than one might expect

- A plan resumed after an interruption runs its pending steps in the old groups. A step can then run before
  the one it depends on. `PlanResumed.ResumedPlanCanRunEarly` shows a plan, and
  `PlanResumed.ResumedOrderExactly` says when it happens.
- `edit_file` on a file that mixes lone CR with LF can merge two newlines into one.
  `EditFile.MixedNewlinesCanMerge` shows a file, `EditFile.EditCommutesExactly` says when it happens.
- A repeating task without rule and interval is moved on from now, not from its due time, and can step back
  when it is due on an exception date that is still to come. `ScheduleProperties.RhythmlessCanStepBack`
  shows a task, `ScheduleProperties.TouchMovesForward` says when it happens.
- A `schedule` that fails because the store is full has dropped its finished tasks all the same. That takes
  more than fifty stored user tasks, so it never happens in a store that started empty.
  `ScheduleProperties.FailedScheduleCanDrop` shows such stores, `ScheduleProperties.FailedScheduleDrops` says
  when a failing call changes one, and `ScheduleRuns.RunKeepsLimit` and `ScheduleRuns.FailedAddChangesNothing`
  say that runs from an empty store never meet it.
- In `execute_plan` a failing step with `on_failure == "abort"` ends the run before the later results of its
  own batch are taken up. Such a step may have succeeded; its success is not recorded and after an
  interruption it is run again. `PlanExecution.SuccessCanBeLost` and `PlanResumption.SuccessCanBeRunAgain` show
  it on a batch of two; `PlanExecution.ResultIsLostExactly` and `PlanExecution.AllTakenUpExactly` say which
  results of a batch are lost, and `ExecutePlan` and `RunPlan` say it of the steps that were run.

## Model

| member | source | states |
|---|---|---|
| SkillNames.SlugIsSafe | VoiceCommand/agent/skill_installer.py:38-40 | whatever a package is called, its folder name is one path component that is neither empty nor dotted |
| SkillNames.SlugKeepsName | VoiceCommand/agent/skill_installer.py:38-40 | a name that is a proper folder name already is its own slug |
| SkillNames.SlugDashesRuns | VoiceCommand/agent/skill_installer.py:38-40 | a run of other characters between two proper names becomes one dash |
| SkillStore.MoveAway | VoiceCommand/agent/skill_installer.py:231-234 | renaming a logged folder to its backup keeps the journal sufficient to restore the old folders |
| SkillStore.ScratchTarget | VoiceCommand/agent/skill_installer.py:235-240 | a half-deleted or half-copied destination stays restorable once its original is in the backup |
| SkillStore.LogRow | VoiceCommand/agent/skill_installer.py:226-232 | a journal row written before its folder is touched keeps the journal true |
| SkillStore.UndoneMeansOriginal | VoiceCommand/agent/skill_manager.py:304-346 | when every row of a true journal is undone, the folders are exactly the original ones |
| SkillStore.NoJournalMeansOriginal | VoiceCommand/agent/skill_manager.py:304-307 | without a journal a disk is recoverable if and only if its folders are the original ones |
| SkillInstall.JournalIsWellFormed | VoiceCommand/agent/skill_installer.py:145-153 | every journal an update can write has distinct keys, passes all of recovery's checks, and no two of its rows touch one folder |
| SkillInstall.BackupsAreInvisible | VoiceCommand/agent/skill_manager.py:288-290 | whatever happens inside a backup folder, the loaded skills stay the same |
| SkillInstall.SkillInstaller.WriteUpdateJournal | VoiceCommand/agent/skill_installer.py:145-153 | the journal becomes the rows of the backups taken so far, or stays as it was |
| SkillInstall.SkillInstaller.PutAway | VoiceCommand/agent/skill_installer.py:226-234 | logging a folder and moving it away leaves every intermediate disk recoverable, whether or not it succeeds |
| SkillInstall.SkillInstaller.CopyInto | VoiceCommand/agent/skill_installer.py:235-242 | replacing a folder's content, at whatever point it stops, leaves the disk recoverable; on success the folder has the package's files |
| SkillInstall.SkillInstaller.InstallFromLocalDir | VoiceCommand/agent/skill_installer.py:218-244 | installing one package keeps every disk recoverable and touches no folder but its own and backups |
| SkillInstall.SkillInstaller.Install | VoiceCommand/agent/skill_installer.py:196-216 | installing all packages keeps every disk recoverable; on success each folder has the files of the last package of its name |
| SkillInstall.SkillInstaller.RollBack | VoiceCommand/agent/skill_installer.py:116-131 | every disk of a rollback is recoverable; the folders are the original ones unless something is left unrestored, and that only if a call of the rollback failed |
| SkillInstall.SkillInstaller.Commit | VoiceCommand/agent/skill_installer.py:104-114 | from the deletion of the journal on the update is complete at every disk, and unless a call fails no backup of it is left; only a failing deletion keeps it from that, and then the disk is still recoverable |
| SkillInstall.SkillInstaller.Update | VoiceCommand/agent/skill_installer.py:74-143 | every disk before the commit recovers to the old folders, every disk from it on loads exactly the new skills with their old enabled flags and has all other folders as before, a failed update ends with the old folders or a journal that suffices, and it fails only if a call failed or the packages are incomplete or lack the skill; unless a call failed, a rolled back update leaves no journal and a complete one no backup of its own |
| SkillInstall.SkillInstaller.UpdateAfterRollback | VoiceCommand/agent/skill_installer.py:92-142 | after an update that was rolled back the next one is not blocked, unless a call failed in the first |
| SkillRecovery.RecoveryStepIsSafe | VoiceCommand/agent/skill_manager.py:304-346 | no disk change of recovery makes a recoverable disk unrecoverable |
| SkillRecovery.RecoveryStaysInside | VoiceCommand/agent/skill_manager.py:304-346 | whatever the journal says, recovery changes nothing but proper folders of the directory and update backups |
| SkillRecovery.CrashesLoseNothing | VoiceCommand/agent/skill_manager.py:304-346 | over any number of recovery attempts, each cut short anywhere, the disk stays recoverable, and once the journal is gone the folders are the original ones |
| SkillRecovery.RecoverySucceeds | VoiceCommand/agent/skill_manager.py:312-344 | undoing the rows in order turns every recoverable disk into the original folders |
| SkillRecovery.RecoveryIsReentrant | VoiceCommand/agent/skill_manager.py:304-346 | an update stopped at any disk, then recovery crashed any number of times: one undisturbed recovery restores the original folders |
| SkillRecovery.SkillManager.RecoverRow | VoiceCommand/agent/skill_manager.py:312-343 | one row is undone, or recovery stops, through allowed recovery steps only |
| SkillRecovery.SkillManager.RecoverInterruptedUpdate | VoiceCommand/agent/skill_manager.py:304-346 | recovery either undoes every row and removes the journal or keeps the journal, through allowed recovery steps only; it stops only at a failing call or a journal it does not accept |
| PlanGraph.BuildDag | VoiceCommand/agent/dag_builder.py:437-481 | each node's dependencies are the declared ones, the output references and all earlier steps that conflict |
| PlanDependencies.DependsExactly | VoiceCommand/agent/dag_builder.py:437-481 | the engine sees a step depend on another if and only if it was declared, its output is referred to, or it comes earlier and conflicts |
| PlanDependencies.ConflictExactly | VoiceCommand/agent/dag_builder.py:457-472 | steps conflict if and only if both use the desktop or one writes a resource that the other reads or writes, or a path above or below such a one |
| PlanGraph.PeelShrinks | VoiceCommand/agent/dag_builder.py:488-499 | a round with a ready node leaves strictly fewer nodes, so the numbering loop ends |
| PlanGraph.EnumeratedIncreases | VoiceCommand/agent/dag_builder.py:490-493 | in the cycle fallback a larger id gets a larger number |
| PlanLayers.EnumeratedExactly | VoiceCommand/agent/dag_builder.py:490-493 | in the cycle fallback the numbers are consecutive in id order |
| PlanGraph.AssignParallelGroups | VoiceCommand/agent/dag_builder.py:484-500 | the loop numbers every node, as repeated peeling with the cycle fallback does |
| PlanAnnotation.AnnotateSteps | VoiceCommand/agent/dag_builder.py:503-513 | every step, in place, gets its node's dependencies, resources and group; steps without a node stay as they were |
| PlanAnnotation.PlanGroups | VoiceCommand/agent/dag_builder.py:437-513 | the three passes together annotate the plan |
| PlanLayers.DependencyNeverShares | VoiceCommand/agent/dag_builder.py:484-500 | a node never shares a group with a node it depends on, cycles or not |
| PlanLayers.SmallerDependencyIsEarlier | VoiceCommand/agent/dag_builder.py:484-500 | a dependency with a smaller id has a smaller group number, cycles or not |
| PlanLayers.LayersAreALayering | VoiceCommand/agent/dag_builder.py:484-500 | when some valid layering exists, the group numbers are one |
| PlanLayers.LayersAreLeast | VoiceCommand/agent/dag_builder.py:484-500 | and no valid layering puts any node lower, so the number of layers is least |
| PlanLayers.LowerGroupsStartEarlier | VoiceCommand/agent/dag_builder.py:484-500 | below a peeled node every smaller group has a member with a smaller id |
| PlanLayers.DependencyGroupStartsFirst | VoiceCommand/agent/dag_builder.py:484-500 | a dependency's group has a member with a smaller id than any member of the dependent's group |
| PlanBatches.GroupByParallelGroup | VoiceCommand/agent/execution_engine.py:624-647 | the batches come in the order of their groups' first members, and a group with several desktop steps is split |
| PlanOrder.BatchesArePermutation | VoiceCommand/agent/execution_engine.py:627-647 | the batches hold every step exactly once |
| PlanOrder.BatchHasOneGroup | VoiceCommand/agent/execution_engine.py:630-647 | a batch never mixes groups |
| PlanOrder.ConflictsAreSeparated | VoiceCommand/agent/dag_builder.py:457-472 | two conflicting steps never share a group, whatever else the plan declares |
| PlanOrder.NoConflictInABatch | VoiceCommand/agent/dag_builder.py:457-500 | no two steps in one executed batch conflict, for every plan of distinct ids |
| PlanDependencies.NothingDisturbsInABatch | VoiceCommand/agent/dag_builder.py:457-500 | nothing a step writes is read or written by another step of its batch, directly or by way of a containing path, for every plan of distinct ids |
| PlanDependencies.SharedBatchExactly | VoiceCommand/agent/execution_engine.py:627-647 | two steps of a numbered plan share a batch if and only if they have one group and no two steps of it use the desktop |
| PlanDependencies.GroupRunsInIdOrder | VoiceCommand/agent/execution_engine.py:636-647 | within a group, split or not, steps come in id order |
| PlanOrder.DesktopIsNeverShared | VoiceCommand/agent/execution_engine.py:640-647 | no executed batch holds two steps that use the desktop, whether their resources or their texts say so, for every plan |
| PlanOrder.DependenciesRunEarlier | VoiceCommand/agent/execution_engine.py:624-647 | in a full plan in id order that refers back, a dependency with a smaller id runs in a strictly earlier batch, conflicts included |
| PlanDependencies.PlannedOrderIsKept | VoiceCommand/agent/execution_engine.py:624-647 | in a full plan in id order that refers back, every smaller step that a step declares, refers to or conflicts with is in a strictly earlier batch |
| PlanResumed.ResumedOrderExactly | VoiceCommand/agent/agent_orchestrator.py:574-578 | in any filtered plan one step's group runs before another's if and only if its first pending member comes first |
| PlanResumed.ResumedPlanCanRunEarly | VoiceCommand/agent/agent_orchestrator.py:574-578 | a plan whose pending part runs a step before the pending step it depends on |
| PlanExecution.ExecutionEngine.ExecuteParallelGroup | VoiceCommand/agent/execution_engine.py:433-484 | every step of the batch gets exactly one result in order, which is what its runner reported; no runner is started after a cancellation, and all are run unless the plan is cancelled |
| PlanExecution.ExecutionEngine.Guarded | VoiceCommand/agent/execution_engine.py:195-222 | a batch's results are taken up, after the guard, up to the first aborting failure that is met before the cancel event, and the plan is aborted if and only if there is one |
| PlanExecution.ResultIsLostExactly | VoiceCommand/agent/execution_engine.py:195-222 | a result of a batch is lost if and only if one before it in the batch aborts the plan |
| PlanExecution.AllTakenUpExactly | VoiceCommand/agent/execution_engine.py:195-222 | all results of a batch are taken up if and only if none but the last aborts the plan |
| PlanExecution.SuccessCanBeLost | VoiceCommand/agent/execution_engine.py:221-222 | a batch of two on which a success is lost |
| PlanExecution.ExecutionEngine.ExecutePlan | VoiceCommand/agent/execution_engine.py:124-227 | each step is run at most once, batch by batch, never after a cancellation and never when its condition does not hold, and has at most one result, which is what its runner reported unless the guard turned it down, and unless the plan is cancelled no success is taken up that the guard has not seen; a step that was run is without a result if and only if the plan was aborted by an earlier step of its own batch; success means that every step has a result or a condition that does not hold and that no aborting step failed; it ends early only when cancelled or aborted |
| PlanExecution.DependencyIsRunFirst | VoiceCommand/agent/execution_engine.py:124-227 | in a fresh plan in id order that refers back, a step is run after every smaller step it depends on that is run, conflicts included |
| PlanExecution.PlannedStepIsRunFirst | VoiceCommand/agent/execution_engine.py:124-227 | in such a plan a step is run after every smaller step that is run and that it declares, refers to or conflicts with |
| PlanResumption.NumberedBatchesGroupWell | VoiceCommand/agent/execution_engine.py:624-647 | the batches of any part of a numbered plan hold exactly its steps and none twice, as execution demands |
| PlanResumption.AgentOrchestrator.RunPlan | VoiceCommand/agent/agent_orchestrator.py:475-614 | a resumed session runs no step whose success is recorded, forgets no recorded success and makes none up, and hands verification exactly one result for every step that was not skipped, wherever it was interrupted before; when it is interrupted, the checkpoint holds a result for every step it ran except exactly those behind an aborting failure in one batch; when it is refused it runs nothing; it is interrupted only if the user asked for that during the session, and it ends without verification only when interrupted, refused, out of time or aborted |
| PlanResumption.PendingExactly | VoiceCommand/agent/agent_orchestrator.py:574-575 | a step of the plan is pending in the next session if and only if no success of it is recorded |
| PlanResumption.SuccessCanBeRunAgain | VoiceCommand/agent/agent_orchestrator.py:574-583 | a plan in which a step that succeeded is not in the checkpoint and is pending in the next session |
| PlanResumption.SomeRan | VoiceCommand/agent/agent_orchestrator.py:574-580 | the kept results and the new ones together have distinct steps of the plan and keep every recorded success |
| PlanResumption.RecordedIsNotRerun | VoiceCommand/agent/agent_orchestrator.py:527-583 | over any number of interrupt and resume cycles, a step whose success was recorded is never run again and stays recorded |
| JsonScan.PrintIsNeutral | VoiceCommand/agent/planner_json_utils.py:15-40 | scanning a printed value returns to the depth it started at, whatever brackets, quotes and escapes its strings hold, and never below it |
| JsonScan.CutBracketHasNoEnd | VoiceCommand/agent/planner_json_utils.py:43-65 | a bracket whose partner is cut off is never closed by anything inside it |
| PlannerJson.FindEnd | VoiceCommand/agent/planner_json_utils.py:22-40 | the scanning loop finds the position where the bracket is closed outside strings, if there is one |
| PlannerJson.ExtractBalanced | VoiceCommand/agent/planner_json_utils.py:15-40 | the text from the first opening bracket to its partner, or nothing |
| PlannerJson.ExtractPartialObject | VoiceCommand/agent/planner_json_utils.py:43-65 | the object text at the cursor with its end, or nothing and the cursor |
| PlannerJson.RecoverPartialArray | VoiceCommand/agent/planner_json_utils.py:68-90 | the loop returns the items that repeated reading of the next object gives, up to the first that cannot be read |
| PlannerJson.ParseJsonArray | VoiceCommand/agent/planner_json_utils.py:106-118 | fence stripping, then the balanced text, then recovery |
| JsonRecovery.BalancedExtraction | VoiceCommand/agent/planner_json_utils.py:15-40 | behind prose without a bracket, exactly the printed array is extracted, whatever follows it |
| JsonRecovery.CutArrayIsNotBalanced | VoiceCommand/agent/planner_json_utils.py:15-40 | no proper prefix of a printed array is taken for a balanced text |
| JsonRecovery.InverterReadsBack | VoiceCommand/agent/planner_json_utils.py:111-112 | a `json.loads` that undoes the printer on well-formed values reads back any of them and their list, as recovery needs it |
| JsonRecovery.RecoversWholeObjects | VoiceCommand/agent/planner_json_utils.py:68-90 | from the first object on, exactly the objects that are wholly there are recovered, if `json.loads` reads each of them back |
| JsonTruncation.ObjectTextIsThere | VoiceCommand/agent/planner_json_utils.py:68-90 | where each object's text lies in the printed array |
| JsonTruncation.WholeArrayParses | VoiceCommand/agent/planner_json_utils.py:106-118 | a printed array in prose with anything behind it is parsed to its items, if `json.loads` reads that array back |
| JsonTruncation.FencedArrayParses | VoiceCommand/agent/planner_json_utils.py:11-12 | a printed array in a code fence, tagged as json in any case or not at all, is parsed to its items, if `json.loads` reads that array back |
| JsonTruncation.TruncationRecovery | VoiceCommand/agent/planner_json_utils.py:106-118 | a printed list of objects cut anywhere is parsed to exactly the objects whose text ends within the cut, if `json.loads` reads the objects and the whole list back |
| JsonRejection.RejectedArrayComesBack | VoiceCommand/agent/planner_json_utils.py:106-118 | a balanced array of objects that `json.loads` rejects for what stands behind the last object, such as a trailing comma, comes back whole |
| JsonRejection.UnreadableObjectEndsRecovery | VoiceCommand/agent/planner_json_utils.py:106-118 | an object in the middle that cannot be read ends the recovery: exactly the objects before it come back, whatever follows |
| JsonRejection.BodyIsRecovered | VoiceCommand/agent/planner_json_utils.py:68-90 | complete objects are read one by one, and then what follows the next comma |
| JsonInverse.PrintIsInjective | VoiceCommand/agent/planner_json_utils.py:111-112 | different values have different texts |
| JsonInverse.PrinterHasAnInverse | VoiceCommand/agent/planner_json_utils.py:111-112 | a `json.loads` that undoes the printer on every well-formed value exists, with any answers on all other texts |
| JsonInverse.OnlyWellFormedIsPrinted | VoiceCommand/agent/planner_json_utils.py:111-112 | the text of a value is that of a well-formed value if and only if the value is well-formed |
| JsonInverse.MalformedIsFree | VoiceCommand/agent/planner_json_utils.py:111-112 | nothing is demanded of `json.loads` on a sign without digits or on an object that names a key twice |
| EditFile.NormalizeWithOffsets | VoiceCommand/agent/file_tools.py:382-394 | the loop yields the normalised text and, for each of its characters, where it starts in the original |
| EditFile.OffsetSplits | VoiceCommand/agent/file_tools.py:382-394 | cutting the original at an offset cuts the normalised text at the same character |
| EditFile.TwoReplacesNormalize | VoiceCommand/agent/file_tools.py:395-396 | the two replacements applied to the arguments are the normalisation applied to the content |
| EditFile.Edit | VoiceCommand/agent/file_tools.py:382-414 | the result of the edit: an error unless the old text occurs once, otherwise the original with just the matched range replaced |
| EditMatches.EditedExactly | VoiceCommand/agent/file_tools.py:397-414 | the file is edited if and only if the old text is not empty and, newlines apart, stands in one place: first there and nowhere behind that occurrence |
| EditMatches.EditedAtThatPlace | VoiceCommand/agent/file_tools.py:406-414 | and then exactly that place is replaced in the original |
| EditMatches.RefusedExactly | VoiceCommand/agent/file_tools.py:397-405 | a refusal names the largest number of occurrences that do not overlap |
| EditMatches.NoMatchExactly | VoiceCommand/agent/file_tools.py:397-405 | it names zero if and only if there is no occurrence |
| EditMatches.NewlineExactly | VoiceCommand/agent/file_tools.py:408-409 | which newline the new text is written with, by what occurs in the file |
| EditFile.NormalizeJoined | VoiceCommand/agent/file_tools.py:382-394 | normalising commutes with joining, except that a CR meeting a LF costs one character |
| EditFile.EditCommutesExactly | VoiceCommand/agent/file_tools.py:397-414 | normalising the edited text equals editing the normalised text if and only if no two newlines merge at the seams |
| EditFile.MixedNewlinesCanMerge | VoiceCommand/agent/file_tools.py:406-414 | a file with mixed newlines on which they merge |
| EditFile.CleanEditCommutes | VoiceCommand/agent/file_tools.py:382-414 | when every CR is followed by LF, or there is no LF, editing commutes with normalising |
| EditFile.SelfEditIsIdentity | VoiceCommand/agent/file_tools.py:406-414 | with one newline style, replacing a text by itself gives back the identical file |
| ConversationHistory.History.AddToHistory | VoiceCommand/agent/llm_provider.py:362-369 | the history becomes its newest part without leading tool results |
| ConversationHistory.History.HistoryForContext | VoiceCommand/agent/llm_provider.py:480-558 | the context is the selection from the cleaned history |
| ConversationHistory.History.KeepWithoutTools | VoiceCommand/agent/llm_provider.py:484-503 | the loop drops tool messages and joins what then meets with one role |
| ConversationHistory.History.CleanPairs | VoiceCommand/agent/llm_provider.py:504-535 | the loop keeps tool uses only together with their results |
| ConversationHistory.History.SelectNewest | VoiceCommand/agent/llm_provider.py:536-558 | the loop takes groups from the newest on while the budget allows |
| ConversationContext.CleanIsWellPaired | VoiceCommand/agent/llm_provider.py:504-535 | after cleaning, every tool use is answered by the next message and every result answers the one before |
| SentContext.CleanExactly | VoiceCommand/agent/llm_provider.py:504-535 | cleaning keeps exactly the messages without tool blocks and the two halves of every answered tool use, in order |
| ConversationContext.CleanKeepsPlain | VoiceCommand/agent/llm_provider.py:504-535 | cleaning drops no message without tool blocks and keeps their order |
| ConversationContext.CleanKeepsWellPaired | VoiceCommand/agent/llm_provider.py:504-535 | a history of whole pairs is left alone |
| ConversationContext.SelectedFromReach | VoiceCommand/agent/llm_provider.py:536-558 | the selection is the compacted history from one boundary on |
| ConversationContext.ReachIsFarthest | VoiceCommand/agent/llm_provider.py:536-558 | with messages selected already, that boundary is the farthest one whose suffix fits the rest of the budget |
| ConversationContext.ContextIsLongestFit | VoiceCommand/agent/llm_provider.py:480-558 | the context is the longest suffix of whole groups that fits the budget, or the newest group alone, and its tool pairs are whole |
| SentContext.ContextSays | VoiceCommand/agent/llm_provider.py:465-558 | every message of the context has the role and content of its message in the cleaned history, except that a text of more than 2000 characters is replaced by a note of its length in decimal digits |
| SentContext.TokensExactly | VoiceCommand/agent/llm_provider.py:456-463 | a message costs a third of its length, rounded down, and at least one token |
| SentContext.EstimateExactly | VoiceCommand/agent/llm_provider.py:456-463 | messages together cost the sum |
| ConversationContext.DroppingToolsKeepsAlternation | VoiceCommand/agent/llm_provider.py:484-503 | an alternating history stays alternating without its tool messages, and no other text is lost or reordered |
| SentContext.DroppedExactly | VoiceCommand/agent/llm_provider.py:484-503 | without tool messages nothing changes; where a run of them is left out, the messages around it are joined if and only if they are texts of one role |
| ConversationContext.AddingKeepsNoOrphans | VoiceCommand/agent/llm_provider.py:362-369 | trimming never leaves a result whose tool use was trimmed away, and keeps a suffix within the limit |
| SentContext.AddedExactly | VoiceCommand/agent/llm_provider.py:362-369 | the newest messages up to twice the limit are kept, less exactly the tool results in front of them |
| ScheduledTasks.ComputeNextRun | VoiceCommand/agent/proactive_scheduler.py:695-722 | the loops end for any list of exception dates, with the instant the search finds |
| ScheduleProperties.NextRunIsLeast | VoiceCommand/agent/proactive_scheduler.py:695-722 | for daily, weekday, weekly, hourly and fixed-interval tasks: the least last_due + k periods (k at least 1) after now, on no exception date, on a weekday if required |
| SchedulePromises.NextRunInSeconds | VoiceCommand/agent/proactive_scheduler.py:695-722 | the same in seconds of 604800, 86400 or 3600 and by the calendar, without weekends where the task asks for that |
| SchedulePromises.CalendarIsRight | VoiceCommand/agent/proactive_scheduler.py:712-713 | weekdays agree with known dates and advance by one a day |
| ScheduleProperties.NextRunIsLater | VoiceCommand/agent/proactive_scheduler.py:695-722 | for every task the next run is after now, on no exception date and on a weekday if required |
| ScheduleProperties.TouchMovesForward | VoiceCommand/agent/proactive_scheduler.py:736-753 | touching a repeating task moves its next run forward, always if it has a rhythm, otherwise if and only if every day from now to the due time is an exception date |
| ScheduleProperties.RhythmlessCanStepBack | VoiceCommand/agent/proactive_scheduler.py:707-708 | a task without rhythm whose next run goes back |
| ScheduleProperties.ClaimIsIdempotent | VoiceCommand/agent/proactive_scheduler.py:724-766 | claiming again at the same instant claims nothing and changes nothing |
| SchedulePromises.ClaimsExactly | VoiceCommand/agent/proactive_scheduler.py:724-766 | one claim for every task that is enabled, whose time has come and whose day is no exception, in order and with its times, and no other |
| SchedulePromises.TickExactly | VoiceCommand/agent/proactive_scheduler.py:728-763 | after a tick no task is due; exactly the due ones were run, one-shot tasks are switched off, repeating ones wait for their next run, all others are as before |
| ScheduleProperties.EvictTakesOldest | VoiceCommand/agent/proactive_scheduler.py:242-252 | dropping takes the oldest finished tasks, and the others stay in order |
| ScheduleProperties.ScheduleKeepsLimit | VoiceCommand/agent/proactive_scheduler.py:234-256 | only finished tasks are dropped and no more than needed; scheduling fails if and only if the other user tasks alone reach the limit, and else leaves at most fifty user tasks |
| ScheduleProperties.FailedScheduleDrops | VoiceCommand/agent/proactive_scheduler.py:234-256 | a failing call leaves exactly the unfinished tasks; it changes the store if and only if some task was finished, and then more than fifty user tasks were stored |
| ScheduleProperties.FailedScheduleCanDrop | VoiceCommand/agent/proactive_scheduler.py:234-256 | stores of one finished and at least fifty unfinished user tasks, on which a failing call drops the finished one |
| SchedulePromises.RoomExactly | VoiceCommand/agent/proactive_scheduler.py:234-256 | only completed and disabled user tasks are ever dropped, none below fifty user tasks, and none for the application's own tasks |
| SchedulePromises.PutExactly | VoiceCommand/agent/proactive_scheduler.py:254 | the stored task stands in its old place or last, and the others stay in order |
| SchedulePromises.RemoveExactly | VoiceCommand/agent/proactive_scheduler.py:326-332 | exactly that task is taken out, and the others stay in order |
| SchedulePromises.ToggleExactly | VoiceCommand/agent/proactive_scheduler.py:341-349 | exactly that task is switched, where it stands |
| ProactiveScheduling.ScheduledTask.Claim | VoiceCommand/agent/proactive_scheduler.py:728-763 | one task is skipped, moved on, switched off or claimed |
| ProactiveScheduling.ProactiveScheduler.ClaimDueTasks | VoiceCommand/agent/proactive_scheduler.py:724-766 | all tasks are updated in place and exactly the due ones are returned, in order |
| ProactiveScheduling.ProactiveScheduler.DropFinished | VoiceCommand/agent/proactive_scheduler.py:242-252 | the cleaning loop drops the oldest finished tasks until there is room or none is left |
| ProactiveScheduling.ProactiveScheduler.Schedule | VoiceCommand/agent/proactive_scheduler.py:220-257 | the stored tasks after scheduling, and whether there was room |
| ProactiveScheduling.ProactiveScheduler.Cancel | VoiceCommand/agent/proactive_scheduler.py:326-332 | the task is removed, and whether there was one |
| ProactiveScheduling.ProactiveScheduler.ToggleTask | VoiceCommand/agent/proactive_scheduler.py:341-349 | the task is switched and no longer counts as completed |
| ScheduleRuns.ClaimedOnce | VoiceCommand/agent/proactive_scheduler.py:724-766 | over any run with a clock that does not go back, a task claimed twice was due again after the first claim, or is a one-shot task that was toggled in between |
| ScheduleRuns.NextRunOnlyIncreases | VoiceCommand/agent/proactive_scheduler.py:724-766 | over any run the next run of a repeating task with a rhythm never goes back, and goes on whenever a claim touches it |
| ScheduleRuns.CompletedWasClaimed | VoiceCommand/agent/proactive_scheduler.py:234-256 | over any run from an empty store, a task counts as completed, and so may be dropped to make room, only after it was claimed as a one-shot task |
| ScheduleRuns.RunKeepsLimit | VoiceCommand/agent/proactive_scheduler.py:234-256 | over any run from an empty store there are never more than fifty user tasks |
| ScheduleRuns.FailedAddChangesNothing | VoiceCommand/agent/proactive_scheduler.py:234-256 | over any run from an empty store a call of `schedule` that fails changes nothing |
| AgentTaskQueues.AgentTaskQueue.Submit | VoiceCommand/agent/task_queue.py:88-93 | the state after a submission, which is refused after shutdown |
| AgentTaskQueues.AgentTaskQueue.Cancel | VoiceCommand/agent/task_queue.py:95-102 | the cancel event of the pending or running task is set, and whether there was one |
| AgentTaskQueues.AgentTaskQueue.CancelCurrent | VoiceCommand/agent/task_queue.py:104-112 | the cancel events of the chosen running tasks are set, and how many they are |
| AgentTaskQueues.AgentTaskQueue.GetStatus | VoiceCommand/agent/task_queue.py:114-121 | where the id is found, or unknown |
| AgentTaskQueues.AgentTaskQueue.BeginShutdown | VoiceCommand/agent/task_queue.py:127-132 | the state after the locked part of a shutdown |
| AgentTaskQueues.AgentTaskQueue.Fetch | VoiceCommand/agent/task_queue.py:138-149 | the first entry moves from the queue into the worker's hands, sentinels are dropped |
| AgentTaskQueues.AgentTaskQueue.Begin | VoiceCommand/agent/task_queue.py:151-165 | a pending task becomes running, or its cancellation becomes a result |
| AgentTaskQueues.AgentTaskQueue.Record | VoiceCommand/agent/task_queue.py:189-191 | a running task becomes a result |
| AgentTaskQueues.AgentTaskQueue.StoreResult | VoiceCommand/agent/task_queue.py:193-197 | the loop keeps the newest results up to the cap |
| TaskQueueRuns.StoredKeeps | VoiceCommand/agent/task_queue.py:193-197 | storing a new id's result loses at most the oldest result, and that only when the dictionary was full |
| TaskQueueRuns.StepKeepsInv | VoiceCommand/agent/task_queue.py:72-197 | every step of every thread keeps the whole invariant of the queue |
| TaskQueueRuns.QueueInvariant | VoiceCommand/agent/task_queue.py:72-197 | in every interleaving with distinct ids: an id is in one of pending, running and finished at most, running tasks never exceed the workers, results never exceed the cap, no pending task is lost |
| TaskQueueRuns.FetchTakesLeast | VoiceCommand/agent/task_queue.py:138-149 | a worker takes the entry that is least by priority and submission number |
| TaskQueueRuns.StartsOnce | VoiceCommand/agent/task_queue.py:151-170 | no task's runner is started twice |
| TaskQueueRuns.CancelledNeverStarts | VoiceCommand/agent/task_queue.py:95-165 | a task whose cancel event is set while it is pending, by `cancel` or by a shutdown that cancels pending tasks, never starts |
| TaskQueueRuns.KnownUntilEvicted | VoiceCommand/agent/task_queue.py:88-197 | the status of an accepted id is unknown if and only if some step before pushed its result out, which was then the oldest of a full dictionary |
| TaskOutcomes.StatusIsTrue | VoiceCommand/agent/task_queue.py:151-197 | in every interleaving "failed" means that the runner raised, "completed" that it returned without having been told to stop, "cancelled" that it was told to stop before it returned or was started |
| TaskOutcomes.StatusExactly | VoiceCommand/agent/task_queue.py:114-121 | in every interleaving the status says where the id is: pending, running, or finished with the stored outcome |
| TaskOutcomes.CancelledExactly | VoiceCommand/agent/task_queue.py:95-132 | an unfinished task's cancel event is set if and only if it was cancelled by its id, with the running ones, or by a shutdown |
| TaskOutcomes.SubmitExactly | VoiceCommand/agent/task_queue.py:88-93 | an accepted task is pending and waits with its own priority behind all earlier submissions, and nothing else changes |
| TaskOutcomes.WorkersServeUntilShutdown | VoiceCommand/agent/task_queue.py:138-149 | no worker stops before the shutdown, and none goes to the queue again after it |
| Wilson.IntervalIsScoreTest | VoiceCommand/agent/learning_metrics.py:241-252 | the interval holds exactly the probabilities that the score test does not reject |
| Wilson.IntervalHoldsRate | VoiceCommand/agent/learning_metrics.py:241-252 | the interval lies within 0 and 1 and holds the observed rate |
| ComponentMetrics.LearningMetrics.Record | VoiceCommand/agent/learning_metrics.py:83-133 | both counters of the component grow by what the trial adds, and old days are pruned |
| ComponentMetrics.LearningMetrics.ComponentState | VoiceCommand/agent/learning_metrics.py:210-239 | the sums of the window and the verdict drawn from them |
| LearningVerdict.DayIsTally | VoiceCommand/agent/learning_metrics.py:83-133 | every day that is not pruned holds exactly that day's trials of the log |
| LearningVerdict.LifetimeIsTally | VoiceCommand/agent/learning_metrics.py:97-131 | the lifetime counters hold every trial of the log, pruned from the days or not |
| MetricsLog.DayCountsExactly | VoiceCommand/agent/learning_metrics.py:83-133 | each of the nine counters of a day that is not pruned is the number of the log's trials that it is meant to count |
| MetricsLog.LifetimeCountsExactly | VoiceCommand/agent/learning_metrics.py:97-131 | so is each lifetime counter, over the whole log |
| MetricsLog.KeptExactly | VoiceCommand/agent/learning_metrics.py:444-459 | the days kept are exactly those with a trial that lie at most ninety days before the newest |
| LearningVerdict.WindowIsTally | VoiceCommand/agent/learning_metrics.py:210-220 | the window's sums are the log's trials in the window |
| LearningVerdict.PruningIsInvisible | VoiceCommand/agent/learning_metrics.py:444-459 | pruning changes no sums of a window that does not reach behind the pruning limit |
| LearningVerdict.DisabledIsWorse | VoiceCommand/agent/learning_metrics.py:222-232 | "disabled" implies a lower success rate when applied than when held out, and that every rate fitting the applied trials is below every rate fitting the held-out ones |
| MetricsLog.VerdictExactly | VoiceCommand/agent/learning_metrics.py:222-232 | "disabled" if and only if there are enough trials of both kinds and every rate fitting the applied ones is below every rate fitting the held-out ones; "active" with enough trials otherwise, else "pending" |
| MetricsLog.FitsInNumbers | VoiceCommand/agent/learning_metrics.py:241-252 | a rate fits within 1.96 standard errors |
| LearningVerdict.VerdictIsAboutTheLog | VoiceCommand/agent/learning_metrics.py:83-252 | after any calls on advancing days, the verdict rests on exactly the log's trials of the last sixty days, with successes never above trials |
| LearningVerdict.RecordKeepsSound | VoiceCommand/agent/learning_metrics.py:83-133 | no call makes sound stored counters unsound |
| ResponseCaching.ResponseCache.Get | VoiceCommand/agent/response_cache.py:67-77 | the response found, and the store after the lookup |
| ResponseCaching.ResponseCache.Set | VoiceCommand/agent/response_cache.py:79-84 | the store after storing, cut to its limit |
| ResponseCaching.RunKeepsShape | VoiceCommand/agent/response_cache.py:67-84 | over any run the store holds no key twice and never more than the limit |
| ResponseCaching.LookupDropsExpired | VoiceCommand/agent/response_cache.py:67-77 | a lookup drops the key's entry if and only if it has expired, and no other entry |
| ResponseCaching.LookupIsLastSet | VoiceCommand/agent/response_cache.py:67-84 | a lookup returns nothing but the last value stored for its key, and only within its lifetime |
| ResponseCaching.LookupFinds | VoiceCommand/agent/response_cache.py:67-84 | a lookup within the lifetime finds the last value whenever fewer than the limit of other keys were stored or found since the key was last stored or found |
| SpeechScheduling.EventSpeechScheduler.Request | VoiceCommand/agent/speech_scheduler.py:179-189 | a pending event's payload is replaced in place, a new event is appended |
| SpeechScheduling.EventSpeechScheduler.IsEventAllowed | VoiceCommand/agent/speech_scheduler.py:314-330 | whether cooldown, once-daily rule and daily limit allow the event |
| SpeechScheduling.EventSpeechScheduler.BeginFlush | VoiceCommand/agent/speech_scheduler.py:332-385 | the first pending event that is allowed is taken up, unless guarded or already speaking |
| SpeechScheduling.EventSpeechScheduler.EndFlush | VoiceCommand/agent/speech_scheduler.py:387-404 | a delivered event leaves the pending ones and is entered in the records |
| SpeechScheduling.EventSpeechScheduler.UpdateIgnoredStreak | VoiceCommand/agent/speech_scheduler.py:263-294 | the ignored streak after a reaction was judged |
| SpeechRuns.StepKeepsPending | VoiceCommand/agent/speech_scheduler.py:179-404 | no event is pending twice, and a speech in flight stays where it was found |
| SpeechRuns.StepKeepsInv | VoiceCommand/agent/speech_scheduler.py:179-404 | every step keeps the records accurate and the deliveries within the limits |
| SpeechRuns.SpeechIsLimited | VoiceCommand/agent/speech_scheduler.py:311-404 | with a clock that does not go back: at most three speeches on a date, and two of one event at least its cooldown times 2 to the power min(streak, 3) apart |
| SpeechPromises.AllowedExactly | VoiceCommand/agent/speech_scheduler.py:311-330 | in every run an event is allowed if and only if every delivery of it is long enough ago and fewer speeches than the limit were delivered on the date |
| SpeechPromises.LimitsInNumbers | VoiceCommand/agent/speech_scheduler.py:20-31 | the waiting times in seconds and the limits by streak |
| SpeechPromises.FlushExactly | VoiceCommand/agent/speech_scheduler.py:332-385 | a flush takes up the first event that may be spoken, drops it when it has no text, and else changes nothing |
| SpeechPromises.RequestExactly | VoiceCommand/agent/speech_scheduler.py:179-189 | a requested event is pending once, with the newest payload, and the others are as they were |
| SpeechPromises.DeliveryExactly | VoiceCommand/agent/speech_scheduler.py:387-404 | a delivered event leaves the pending ones and is logged, one that was not spoken stays |
| SpeechPromises.StreakCountsIgnored | VoiceCommand/agent/speech_scheduler.py:263-294 | over any run the streak is the number of speeches ignored since the last one that was heeded |
| SpeechPromises.JudgedOnce | VoiceCommand/agent/speech_scheduler.py:263-294 | no speech is judged twice |

## Left out

- Skill installation outside an update, downloads, archives and frontmatter; an update from a folder's own source folder.
- Interruptions of an update that are neither an `Exception` nor the end of the process.
- A journal that cannot be read or is not an object is one value, `Malformed`; recovery leaves it alone.
- How resources are recognised in a step's text, and how paths are normalised: both are inputs of the plan model.
- `_group_by_dependency` for plans without any group number: it stops at a step that refers to its own or a later output and leaves it out, so completeness does not hold there.
- PlanExecution.ExecutionEngine.ExecutePlan: says nothing about the context dictionary and progress events.
- PlanResumption.AgentOrchestrator.RunPlan: covers the iteration that runs the saved plan; replanning starts a new plan, and a checkpoint written without `current_step_results` by an older version is not modelled.
- What number a JSON numeral stands for: a number is its numeral, as printed. The printed text contains no code fence unless it is the enclosing one.
- The other fields of messages, and streaming; `json.dumps` of a message's blocks only counts by its length.
- Byte order marks, encodings and the atomic write of `edit_file`.
- Natural-language schedule expressions, `add_task`, `ensure_task`, the task file and its migration, and time zones.
- Task ids that are submitted again, the 0.1 second timeout of the queue as time, and progress after shutdown.
- Floating-point rounding in the interval, the random choice of hold-outs, token counters, and stored days that are no dates.
- The wording of speeches, mood, and errors other than the caught ones while speaking.
- Everything else of the application: user interface, speech, messaging, browser and desktop automation, language model calls.
