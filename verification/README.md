# Cetmix Tower: a verified model of its algorithms

Cetmix Tower runs scripted work on servers from Odoo.  This project models the algorithms below its database layer
and proves what they are for.  Each area has a specification (functions on stored values, or a state machine), the code
as methods with loops and updates that are proved to meet it, and the theorems about it.

* **Flight plans.** `FlightPlan` holds the catalog, the logs and the rule that is applied after a line; `PlanLoop` gives
  the meaning of a run as a plain recursive loop over the lines.  `PlanEngine` is the code: a chain of callbacks, with or
  without one queue job per command, proved equal to the loop.  `PlanVerdict` tells from the logs alone which line ends
  a run, with which code, and what the variables are then.  `PlanTrace` follows the history of log writes.
  `PlanMachine` is the queue at work, where jobs, results and stops come in any order; `PlanQueue` is its code.
  `PlanSimulation` and `PlanDeterminism` show that, left alone, it computes what the loop computes.
  `PlanTermination` runs the loop to any depth, with no measure, and `PlanDivergence` proves which catalogs end.
  `PlanRecursion` is the check against recursive plans.
* **YAML.** `YamlRecords` holds records, documents, export and import; `YamlStore` is the code; `YamlRoundTrip` and
  `YamlOwnership` prove the round trip and that each record is written once; `YamlFaults` shows that what does not
  resolve is not rebuilt, so that the condition of the round trip is exact.  `YamlExisting` is about databases that have
  records already: what skipping, updating and creating do to them.
* **Variables.** `VariableResolution` is the recursive resolution of values, `VariablePrecedence` says which value wins;
  `VariableRename` and `VariablePropagation` are the rewriting of templates when a variable is renamed.
* **Secrets.** `Vault` and `VaultRecords` show that the vault is one map from model, record and field to a secret.
  `KeyMarkers`, `KeySubstitution`, `KeyParsing` and `KeyLookup` are the secret markers in code, `KeyReplacement` is the
  parse as a whole and what comes out of it, `Masking` is the hiding of secrets in output, all over the string
  operations of `Text`.
* **Deletion.** `ServerDeletion` is the deletion of servers that have a delete plan, over any interleaving; `PlanCalls`
  says which plans a run can start, and `DeletePlanRun` runs the delete plan on the engine.
* **The rest.** `References` (reference generation), `Scheduler` (scheduled tasks), `Basics` (what the modules share).

What the model cannot see is a parameter: the results of shell, file and Python commands, the truth of a rendered
condition, rendering, value expressions, what Jinja shows for a name that is no variable, and times.

Results that are not what one might hope for.  "If and only if" is meant both ways:

* Plans may call each other in a cycle.  Once a line of a nested plan has been run, no running plan is started again, so
  most cycles end.  Runs end for all conditions and outcomes if and only if unprotected calls form no cycle: calls of a
  plan and a command that both allow parallel runs, made by the first line, or by a later one when the first line has a
  condition and all lines before can be passed (`PlanDivergence.EndsExactlyIfWellFormed`).
* Export and import rebuild what was selected if and only if each bare reference of the file names a record that is
  already made when it is read.  Creating new records, it must not stand in a one2many field either, unless the setting
  looks existing records up there (`YamlFaults.RoundTripIff`).  A record that owns another and refers to it in a later
  field does not come back in any mode (`YamlFaults.OwnedThenReferredFails`); one that stands behind a one2many field and
  was written in full before is duplicated in create mode (`YamlOwnership.CreateDuplicatesLoggedFile`).
* Replacing the markers of a code one after the other tears a marker apart that has no secret and ends with a marker that
  has one; otherwise it is the same as putting all secrets in place at once (`KeyParsing.SequentialIsSimultaneous`).
* A secret may hold the marker of another secret.  If that one is replaced later, the marker in the secret goes too
  (`KeyReplacement.HeldMarkerReplaced`).  Code made of text and regular markers comes out as written with the secrets in
  place if no secret put in place holds `#!` or starts with `!` (`KeyReplacement.RegularCodeFilled`).
* Skipping leaves a record alone only where it is a top-level entry: written out behind a field of another record, it is
  updated all the same (`YamlExisting.EntryData`, `YamlExisting.RelatedUpdated`).
* Masking finds a secret again if and only if it has no outer double quote and no literal backslash and n.
* A template that is rewritten when a variable is renamed keeps its meaning if and only if the new name was not used and
  is read as a variable: a reference such as `1` or `true` is accepted, but the template then shows the number or the
  truth value (`VariableRename.RenameSafeIff`, `VariableRename.NumberLosesMeaning`).
* Renaming a variable does not rewrite the values of other variables that mention it; such a text keeps its meaning if and
  only if it does not use the variable.
* A value that looks like a template and mentions no variable makes the resolution of everything that depends on it fail,
  and nothing else does.
* A step leaves a task reserved for good if and only if a cron worker breaks off that holds it; a manual run that breaks
  off leaves its rows free (`Scheduler.StuckIff`).
* The references generated in one batch are distinct, for distinct parents, if and only if it is not the case that one
  record has no parent and another has a parent whose reference is `no`.
* A delete plan that calls itself may let a nested run of it decide, under the queue, whether the server goes; otherwise
  its own status decides, with and without the queue (`DeletePlanRun.DeleteServer`).

## Model

| member | source | states |
|---|---|---|
| PlanLoop.PlanRun | cetmix_tower_server/models/cx_tower_plan.py:178-244 | a run, nested runs and all, ends: it only adds logs, the first of them for the plan, and leaves none running |
| PlanLoop.LineRun | cetmix_tower_server/models/cx_tower_plan_line.py:168-205 | running a line and all that follows finishes the plan log and touches no log that was there, except that one |
| PlanLoop.StartingLeavesFewerIdle | cetmix_tower_server/models/cx_tower_plan.py:226-244 | part of the termination measure: starting a plan that is not running leaves fewer plans that are not |
| PlanTermination.WellFormedEnds | cetmix_tower_server/models/cx_tower_plan.py:226-244 | if unprotected calls form no cycle, the loop ends at some depth, and at every depth at which it ends its result is that of the run |
| PlanEngine.Tower.RunFlightPlan | cetmix_tower_server/models/cx_tower_server.py:1033-1053 | a run through the callbacks, synchronous or job by job, leaves the logs, the variables and the order of log writes of the plain loop; without nested plans the logs tell the run line by line, up to the line that ends it |
| PlanEngine.Tower.RunSingle | cetmix_tower_server/models/cx_tower_plan.py:178-244 | refusals are recorded, other plans start, as in the loop, or one job is queued that resumes to the same end |
| PlanEngine.Tower.StartPlan | cetmix_tower_server/models/cx_tower_plan_log.py:132-201 | a new plan log runs its first line, and an empty plan fails |
| PlanEngine.Tower.RunOrSkipLine | cetmix_tower_server/models/cx_tower_plan.py:349-378 | the condition of a line decides whether it is run or skipped, as in the loop |
| PlanEngine.Tower.RunLine | cetmix_tower_server/models/cx_tower_plan_line.py:168-205 | running a line marks it as the executed one and runs its command with all that follows |
| PlanEngine.Tower.SkipLine | cetmix_tower_server/models/cx_tower_plan_line.py:248-273 | a skipped line leaves a log with code -205 and without custom values, and the plan goes on |
| PlanEngine.Tower.RunCommand | cetmix_tower_server/models/cx_tower_server.py:856-938 | an incompatible command, or one that runs already, is recorded with its code; others start, as in the loop |
| PlanEngine.Tower.CommandRunnerWrapper | cetmix_tower_server_queue/models/cx_tower_server.py:9-46 | commands of plans that no plan called become jobs, all others run at once; both come to the same end |
| PlanEngine.Tower.CommandRunner | cetmix_tower_server/models/cx_tower_server.py:1098-1186 | by the action of a command it is executed, runs a plan, or ends with -202 |
| PlanEngine.Tower.CommandRunnerFlightPlan | cetmix_tower_server/models/cx_tower_server.py:1371-1425 | a command that runs a plan ends with the status and the custom values of the plan log |
| PlanEngine.Tower.FinishCommand | cetmix_tower_server/models/cx_tower_command_log.py:185-213 | finishing a command log writes its result and then lets the plan go on |
| PlanEngine.Tower.RecordCommand | cetmix_tower_server/models/cx_tower_command_log.py:215-255 | recording a command log lets the plan go on |
| PlanEngine.Tower.PlanCommandFinished | cetmix_tower_server/models/cx_tower_plan_log.py:327-345 | the plan takes over the custom values of the command and goes on, unless it was stopped |
| PlanEngine.Tower.RunNextAction | cetmix_tower_server/models/cx_tower_plan.py:349-378 | after a command the next line comes or the plan log finishes, with -205 reported as 0 |
| PlanEngine.Tower.NextActionValues | cetmix_tower_server/models/cx_tower_plan.py:246-347 | the loop over the actions: the plan goes on, or ends with the code, as the first action that the exit code meets says, else the success or the on-error choice; the values of that action, and no others, are written |
| PlanEngine.Tower.RunJob | cetmix_tower_server_queue/models/cx_tower_server.py:48-77 | a job leads to the same end as going on at once, with fewer lines left |
| PlanEngine.Tower.Drain | cetmix_tower_server_queue/models/cx_tower_server.py:48-77 | the queue runs empty, and the result is that of the loop |
| PlanVerdict.StopsAtFirst | cetmix_tower_server/models/cx_tower_plan.py:246-378 | of a plan without conditions and nested plans, the lines run in order up to the first one whose exit code calls for the end, and the plan log gets that code, the custom code of the action or that of the plan |
| PlanVerdict.MatchedValues | cetmix_tower_server/models/cx_tower_plan.py:287-318 | if its commands leave the server variables alone, these hold afterwards the values of exactly the actions that matched, the later over the earlier |
| PlanVerdict.FlatRunTold | cetmix_tower_server/models/cx_tower_plan.py:178-244 | launched or called, such a run is refused with -306 or -301, fails with -302 for want of lines, or each line leaves its log: skipped with -205, refused with -207 or -201, without a runner -202, else with the outcome of its command |
| PlanVerdict.CalledRunTold | cetmix_tower_server/models/cx_tower_server.py:1371-1425 | a called plan starts with the custom values of the calling log and under its context; that log takes over the status and the custom values |
| PlanVerdict.RuleTold | cetmix_tower_server/models/cx_tower_plan.py:324-347 | the rule of any line, by comparing integers: when the plan goes on, with which code it ends, what is written |
| PlanTrace.StartsMatchFinishes | cetmix_tower_server/models/cx_tower_plan_log.py:184-201 | in a well-nested history every started plan log is finished or still open |
| PlanTrace.RunsEndOnce | cetmix_tower_server/models/cx_tower_plan_log.py:249-268 | a run leaves nothing open, one command log per line passed in line order, and each plan log finished exactly once or only recorded |
| PlanTrace.NestedStatusIsExitCode | cetmix_tower_server/models/cx_tower_server.py:1371-1425 | the nested plan log ends right before its triggering command log, which gets its status and custom values |
| PlanMachine.AdvanceKeepsInv | cetmix_tower_server/models/cx_tower_plan.py:349-378 | going on to a line closes the gap between two lines: a command runs or the plan log is finished |
| PlanMachine.FinishKeepsInv | cetmix_tower_server_queue/models/cx_tower_command_log.py:40-90 | a result for a command log keeps the invariant, whether the log takes it or not |
| PlanMachine.StopPlanKeepsInv | cetmix_tower_server/models/cx_tower_plan_log.py:203-221 | stopping a plan log and its running commands keeps the invariant |
| PlanMachine.RunSingleKeepsInv | cetmix_tower_server/models/cx_tower_plan.py:178-244 | starting a plan, nested or not, keeps the invariant |
| PlanMachine.StepKeepsInv | cetmix_tower_server_queue/models/cx_tower_server.py:48-77 | every step of the queue keeps the invariant: jobs, results, commands and plan logs stopped, one after the other or apart |
| PlanMachine.StepSettles | cetmix_tower_server_queue/models/cx_tower_command_log.py:52-57 | no step changes a finished log, gives a finished plan another command, or begins a command of a stopped plan |
| PlanMachine.RunsKeepInv | cetmix_tower_server_queue/models/cx_tower_server.py:9-77 | every run of the queue keeps the invariant |
| PlanMachine.ReachableStates | cetmix_tower_server/models/cx_tower_plan.py:324-378 | in every reachable state the command logs of a plan log are those of its lines so far in order, it runs exactly when its last one runs, and what forbids parallel runs runs at most once |
| PlanMachine.StopIsFinal | cetmix_tower_server/models/cx_tower_plan_log.py:203-221 | a stopped plan log keeps PLAN_STOPPED, gets no further command log, and none of its queued commands starts executing |
| PlanMachine.ResultsAreFinal | cetmix_tower_server_queue/models/cx_tower_command_log.py:52-57 | a finished command log, one marked COMMAND_STOPPED in particular, keeps its result in every run |
| PlanMachine.NestedResultHandedOn | cetmix_tower_server/models/cx_tower_server.py:1411-1425 | a command that runs a plan ends with the status and the custom values of the plan log that it waited for, and both keep them in every run |
| PlanMachine.StopMarks | cetmix_tower_server/models/cx_tower_plan_log.py:203-221 | stopping gives the plan log -308 and its running commands -208, and touches no other log |
| PlanMachine.StoppedForGood | cetmix_tower_server/models/cx_tower_command_log.py:167-183 | a stopped command has -208 in every later state |
| PlanDeterminism.LaunchedEndsAsLoop | cetmix_tower_server_queue/models/cx_tower_server.py:9-77 | every undisturbed run of a launched plan that leaves nothing pending ends in the world in which the loop ends, nested plans and all |
| PlanDeterminism.LaunchedCanEnd | cetmix_tower_server_queue/models/cx_tower_server.py:9-77 | beside whatever else is pending, a launched plan can be taken to that end |
| PlanSimulation.NestedPlays | cetmix_tower_server/models/cx_tower_server.py:1371-1425 | a called plan starts in the context that the command is in, runs, and hands its status on, as in the loop |
| PlanDeterminism.StepThreaded | cetmix_tower_server_queue/models/cx_tower_server.py:48-77 | undisturbed, at most one command log can go on, after every step |
| PlanQueue.QueuedTower.RunOrSkipLine | cetmix_tower_server/models/cx_tower_plan.py:349-378 | entered between two lines, the code goes on until a command of the plan runs or its log is finished: the invariant holds again |
| PlanQueue.QueuedTower.PlanCommandFinished | cetmix_tower_server/models/cx_tower_plan_log.py:327-345 | entered after a result, the code takes the plan to its next command or to its end: the invariant holds again |
| PlanQueue.QueuedTower.RunPlan | cetmix_tower_server/models/cx_tower_plan.py:178-244 | starting a plan, launched or called, is the machine's, and the invariant holds |
| PlanQueue.QueuedTower.CallPlan | cetmix_tower_server/models/cx_tower_server.py:1371-1410 | a command that runs a plan starts it as a step of the machine |
| PlanQueue.QueuedTower.PlanReturned | cetmix_tower_server/models/cx_tower_server.py:1411-1425 | handing on the result of that plan is a step of the machine |
| PlanQueue.QueuedTower.CommandReturned | cetmix_tower_server/models/cx_tower_server.py:1098-1186 | a command that comes back is a step of the machine |
| PlanQueue.QueuedTower.StopPlanRun | cetmix_tower_server/models/cx_tower_plan_log.py:203-221 | stopping a plan run is a step of the machine |
| PlanQueue.QueuedTower.StopPlanOf | cetmix_tower_server/models/cx_tower_plan_log.py:203-221 | stopping first finishes the plan log, then marks its running commands |
| PlanQueue.QueuedTower.StopCommandOf | cetmix_tower_server/models/cx_tower_command_log.py:167-183 | stopping a command of a plan that no other called finishes it, which may start the next command, and then stops the plan log with it |
| PlanQueue.QueuedTower.StopCommandRun | cetmix_tower_server/models/cx_tower_command_log.py:167-183 | for a plan that no other called that is two steps of the machine in a row, and the invariant holds |
| PlanQueue.QueuedTower.StopNestedCommand | cetmix_tower_server/models/cx_tower_command_log.py:167-183 | in a nested plan a stopped command is one step, after which the lines that follow may run before the plan log is stopped |
| PlanQueue.QueuedTower.QueueCommandRunnerWrapper | cetmix_tower_server_queue/models/cx_tower_server.py:48-77 | a job stops its command instead of executing it if the plan was stopped |
| PlanDivergence.ParallelCycleNeverEnds | cetmix_tower_server/models/cx_tower_plan.py:226-244 | along every endless walk of unprotected calls some conditions and exit codes make the run nest beyond any depth |
| PlanDivergence.EndsExactlyIfWellFormed | cetmix_tower_server/models/cx_tower_plan.py:178-244 | all runs end, whatever conditions and commands do, exactly if unprotected calls form no cycle |
| PlanDivergence.GuardedCallsEnd | cetmix_tower_server/models/cx_tower_plan_line.py:168-205 | cycles of calls that all stand behind an unconditional first line always end |
| PlanRecursion.CheckRecursivePlan | cetmix_tower_server/models/cx_tower_plan_line.py:150-166 | the check with its shared set of visited plans is the walk, and ends on every plan graph |
| PlanRecursion.CheckAcceptsTrees | cetmix_tower_server/models/cx_tower_plan_line.py:133-166 | the check passes exactly when the calls of the command unfold to a tree |
| PlanRecursion.AcceptedFormsTree | cetmix_tower_server/models/cx_tower_plan_line.py:150-166 | an accepted walk has met each plan it can reach along one path only, none of them before |
| PlanRecursion.RefusedHasReason | cetmix_tower_server/models/cx_tower_plan_line.py:150-166 | a refused walk has two different paths to one plan, or one to a plan met before |
| YamlStore.PostProcessRecordValues | cetmix_tower_yaml/models/cx_tower_yaml_mixin.py:209-280 | the export of a record with a collector is the depth-first export, repeats cut to references |
| YamlStore.ProcessRelatedRecords | cetmix_tower_yaml/models/cx_tower_yaml_mixin.py:328-373 | the records behind a field are exported one after the other with the same collector |
| YamlStore.ExportRecords | cetmix_tower_yaml/wizards/cx_tower_yaml_export_wiz.py:210-231 | the file has one entry per selected record, bare references dropped |
| YamlStore.Database.PostProcessYamlDictValues | cetmix_tower_yaml/models/cx_tower_yaml_mixin.py:282-326 | a document becomes values while records behind its fields are made |
| YamlStore.Database.ProcessFieldValue | cetmix_tower_yaml/models/cx_tower_yaml_mixin.py:434-507 | the documents of a field become commands in order |
| YamlStore.Database.ProcessValue | cetmix_tower_yaml/models/cx_tower_yaml_mixin.py:375-432 | a document that leads to no record still links one with its reference |
| YamlStore.Database.UpdateOrCreateRelatedRecord | cetmix_tower_yaml/models/cx_tower_yaml_mixin.py:509-577 | an existing record is updated, a missing one made at once or with its parent, by mode and model |
| YamlStore.Database.ActionImportYaml | cetmix_tower_yaml/wizards/cx_tower_yaml_import_wiz.py:124-213 | the loop over the entries skips, updates or creates as the import does |
| YamlRoundTrip.ExportCollects | cetmix_tower_yaml/models/cx_tower_yaml_mixin.py:224-280 | the collector gains exactly the records that the document makes, its own last |
| YamlRoundTrip.OwnCreated | cetmix_tower_yaml/models/cx_tower_yaml_mixin.py:434-507 | creating from the values of an exported document adds exactly the record and its owned children |
| YamlRoundTrip.DocBuilt | cetmix_tower_yaml/models/cx_tower_yaml_mixin.py:282-326 | processing an exported document, its references resolved, makes exactly the records due now |
| YamlRoundTrip.FileImported | cetmix_tower_yaml/wizards/cx_tower_yaml_import_wiz.py:140-213 | importing an exported file adds exactly the records collected |
| YamlRoundTrip.RoundTrip | cetmix_tower_yaml/wizards/cx_tower_yaml_import_wiz.py:140-213 | if the bare references resolve, export and import rebuild exactly what the selection reaches |
| YamlFaults.RoundTripIff | cetmix_tower_yaml/wizards/cx_tower_yaml_import_wiz.py:140-213 | in every mode: export and import rebuild exactly what the selection reaches if and only if the bare references resolve |
| YamlFaults.FileFails | cetmix_tower_yaml/models/cx_tower_yaml_mixin.py:375-577 | an import that meets an unresolved bare reference leaves some record other than it was exported, whatever follows in the file |
| YamlFaults.OwnedThenReferredFails | cetmix_tower_yaml/models/cx_tower_yaml_mixin.py:434-507 | a record that owns another and refers to it in a later field does not come back, in no mode |
| YamlOwnership.SelectionResolves | cetmix_tower_yaml/models/cx_tower_yaml_mixin.py:375-507 | a condition on the records: with single owners, every bare reference of the file names a record already made, in every mode |
| YamlOwnership.RoundTripInEveryMode | cetmix_tower_yaml/wizards/cx_tower_yaml_import_wiz.py:140-213 | the round trip holds in all three import modes for records with single owners |
| YamlOwnership.EachRecordWrittenOnce | cetmix_tower_yaml/models/cx_tower_yaml_mixin.py:224-280 | each record that can be reached is written out in full exactly once, and no other |
| YamlOwnership.LoggedFileResolves | cetmix_tower_yaml/models/cx_tower_yaml_mixin.py:551-574 | the export of a server with a log of a file and that file resolves when existing records are skipped or updated |
| YamlOwnership.CreateDuplicatesLoggedFile | cetmix_tower_yaml/models/cx_tower_yaml_mixin.py:551-574 | creating, the import of that same export makes a second, empty file |
| YamlExisting.SkippedStays | cetmix_tower_yaml/wizards/cx_tower_yaml_import_wiz.py:164-170 | skipping, a record that exists stays as it is if it is written out at the top level of the file only |
| YamlExisting.UpdatedData | cetmix_tower_yaml/wizards/cx_tower_yaml_import_wiz.py:173-193 | updating, a record that exists has the data of its last document in the file, at whatever depth |
| YamlExisting.EntryData | cetmix_tower_yaml/models/cx_tower_yaml_mixin.py:509-560 | updating, and behind a new record even when skipping, every record that exists gets the data of its last document in an entry |
| YamlExisting.UpdatedLinks | cetmix_tower_yaml/wizards/cx_tower_yaml_import_wiz.py:173-193 | updating, many2one fields come to point where the entry says, other links that it names are added, fields that it does not name stay |
| YamlExisting.RelatedUpdated | cetmix_tower_yaml/models/cx_tower_yaml_mixin.py:509-560 | the same for a record behind a field, skipping or updating |
| YamlExisting.LastEntryDecides | cetmix_tower_yaml/wizards/cx_tower_yaml_import_wiz.py:140-213 | what follows in the file leaves a record alone that it does not write out |
| YamlExisting.UpdateAddsNone | cetmix_tower_yaml/wizards/cx_tower_yaml_import_wiz.py:173-193 | an entry that updates a record adds none for it, only one at most for each document behind its fields |
| YamlExisting.CreatedBeside | cetmix_tower_yaml/wizards/cx_tower_yaml_import_wiz.py:195-213 | creating, an entry makes a record with its data beside one that has its reference, which stays as it was |
| YamlExisting.CreatedAll | cetmix_tower_yaml/wizards/cx_tower_yaml_import_wiz.py:195-213 | over a whole file each entry makes its own record, and what is written out at the top level only stays |
| VariableResolution.GetVariableValues | cetmix_tower_server/models/cx_tower_variable_mixin.py:28-75 | each requested variable gets the value it would get alone, and the error comes exactly when one of them fails; only what is asked for must be acyclic |
| VariableResolution.RenderVariableValues | cetmix_tower_server/models/cx_tower_variable_mixin.py:193-219 | templates are rendered with the resolved values of the variables they mention |
| VariableResolution.ApplyModifiers | cetmix_tower_server/models/cx_tower_variable_mixin.py:221-266 | each rendered value passes through the expression of its variable |
| VariableResolution.GetGlobalVariableValues | cetmix_tower_server/models/cx_tower_variable_mixin.py:77-109 | each variable gets its global value, if any |
| VariableResolution.ResolutionUnique | cetmix_tower_server/models/cx_tower_variable_mixin.py:28-75 | the resolved values are the only solution of the equations that raw values, rendering and expressions give |
| VariableResolution.FailsOnEmptyTemplate | cetmix_tower_server/models/cx_tower_variable_mixin.py:209-219 | resolving fails exactly when the variable depends on a template without variables |
| VariablePrecedence.PlainTextAnswered | cetmix_tower_server/models/cx_tower_variable_mixin.py:42-75 | a requested variable gets its own text, else the global one, else nothing, through its expression; `tower` gets the system value |
| VariablePrecedence.TemplateAnswered | cetmix_tower_server/models/cx_tower_variable_mixin.py:193-219 | a text with two braces and a blank is rendered with the answers for the variables it mentions, and fails with them |
| VariablePrecedence.OwnHidesGlobal | cetmix_tower_server/models/cx_tower_variable_mixin.py:42-63 | through any number of templates, a global value matters only to variables without an own one |
| VariableRename.SubIsRename | cetmix_tower_server/models/cx_tower_variable.py:285-289 | the rewrite of the text is the rename in the parsed template, so longer names are left alone |
| VariableRename.RenameKeepsMeaning | cetmix_tower_server/models/cx_tower_variable.py:279-317 | a renamed template with renamed values renders as before if the new name is a variable that it did not use |
| VariableRename.RenameSafeIff | cetmix_tower_server/models/cx_tower_variable.py:279-317 | for all words as names: a rewritten template keeps its meaning for all values exactly if the new name is a variable that it did not use, or nothing is replaced but by a literal that looks the same |
| VariableRename.NumberLosesMeaning | cetmix_tower_server/models/cx_tower_reference_mixin.py:166-166 | renamed to `1`, a template that showed the value shows the number |
| VariableRename.UnchangedSafeIff | cetmix_tower_server/models/cx_tower_variable.py:293-311 | a template that is not rewritten keeps its meaning exactly when it does not read the old name as a variable |
| VariablePropagation.SubAbsent | cetmix_tower_server/models/cx_tower_variable.py:305-308 | skipping texts that do not contain the name loses nothing |
| VariablePropagation.VariableStore.Write | cetmix_tower_server/models/cx_tower_variable.py:262-277 | a new reference is stored and, if it differs, the records found are rewritten |
| VariablePropagation.VariableStore.PropagateReferenceChange | cetmix_tower_server/models/cx_tower_variable.py:279-317 | over all models, exactly the records found are rewritten |
| VariablePropagation.VariableStore.PropagateToModel | cetmix_tower_server/models/cx_tower_variable.py:293-311 | for one model, exactly its records found are rewritten |
| VariablePropagation.VariableStore.RewriteRecord | cetmix_tower_server/models/cx_tower_variable.py:302-311 | in a record found, exactly the fields listed for its model are rewritten |
| VariablePropagation.TemplatesRewritten | cetmix_tower_server/models/cx_tower_variable.py:319-331 | model by model, exactly the template fields of values of the variable and of records that use it are rewritten |
| VariablePropagation.FoundKeepsMeaningIff | cetmix_tower_server/models/cx_tower_variable.py:279-331 | in the fields listed for its model, a plain template of a record found renders as before for all values exactly if the names allow it |
| VariablePropagation.NotFoundKeepsMeaningIff | cetmix_tower_server/models/cx_tower_variable.py:296-299 | texts of other records keep their meaning exactly if they do not read the variable |
| VariablePropagation.OtherValueLosesMeaning | cetmix_tower_server/models/cx_tower_variable.py:296-297 | a value of another variable that mentions the renamed one comes to render as nothing |
| Vault.AppliedUpdates | cetmix_tower_server/models/cx_tower_vault_mixin.py:276-289 | applying a planned batch to the rows of a map gives the rows of the updated map, one row a key |
| Vault.UpdatedReads | cetmix_tower_server/models/cx_tower_vault_mixin.py:216-289 | a value that is set is read back, an empty one leaves no secret, all other secrets stay |
| Vault.VaultTable.SetSecretValues | cetmix_tower_server/models/cx_tower_vault_mixin.py:216-289 | grouped updates, deletions and insertions are the plain update of the map for those records and fields, all else untouched |
| Vault.VaultTable.PlanBatch | cetmix_tower_server/models/cx_tower_vault_mixin.py:249-274 | the loops over records and fields plan exactly the work there is |
| Vault.VaultTable.WriteGroups | cetmix_tower_server/models/cx_tower_vault_mixin.py:276-278 | one write per value gives each row its own new value |
| Vault.VaultTable.UnlinkRecords | cetmix_tower_server/models/cx_tower_vault_mixin.py:117-130 | exactly the secrets of the given records go |
| Vault.VaultTable.Read | cetmix_tower_server/models/cx_tower_vault_mixin.py:197-214 | one search collects exactly the secrets of the given records and fields |
| VaultRecords.SecretModel.ExtractAndReplaceSecretFields | cetmix_tower_server/models/cx_tower_vault_mixin.py:291-323 | every secret of the batch is replaced, in place, by an identifier that leads back to it |
| VaultRecords.SecretModel.ProcessSingleRecordSecrets | cetmix_tower_server/models/cx_tower_vault_mixin.py:352-384 | a new record gets the secrets its columns stand for, empty ones dropped |
| VaultRecords.SecretModel.ProcessSecretValuesAfterCreation | cetmix_tower_server/models/cx_tower_vault_mixin.py:325-350 | all new records get their secrets, in whatever order they are read, and their columns are emptied |
| VaultRecords.SecretModel.ClearTempValues | cetmix_tower_server/models/cx_tower_vault_mixin.py:386-402 | the secret columns of the given records are emptied and no others |
| VaultRecords.SecretModel.Create | cetmix_tower_server/models/cx_tower_vault_mixin.py:41-70 | creating adds exactly the given non-empty secrets, and the table keeps neither a secret nor an identifier |
| VaultRecords.AddedReads | cetmix_tower_server/models/cx_tower_vault_mixin.py:352-384 | what was given for a new record is read back, unless it was nothing or empty; all other secrets stay |
| VaultRecords.SecretModel.Write | cetmix_tower_server/models/cx_tower_vault_mixin.py:72-103 | writing is the plain update of the map, empty strings kept; only the other values reach the table |
| VaultRecords.SecretModel.Unlink | cetmix_tower_server/models/cx_tower_vault_mixin.py:105-132 | deleting records leaves no secret of theirs and touches no other |
| VaultRecords.SecretModel.GetSecretValues | cetmix_tower_server/models/cx_tower_vault_mixin.py:159-214 | reading shows exactly what the map holds for the records and fields asked for |
| KeyMarkers.ExtractKeyStrings | cetmix_tower_server/models/cx_tower_key.py:196-230 | the scan ends and lists, each once, the leftmost disjoint markers; a prefix in none of them has no terminator after it |
| KeyMarkers.LeftmostUnique | cetmix_tower_server/models/cx_tower_key.py:208-230 | there is one such choice of markers only |
| KeySubstitution.ReplaceJoined | cetmix_tower_server/models/cx_tower_key.py:174-174 | replacing a marker replaces it where a marker ends with it and nowhere else |
| KeySubstitution.SubstitutedJoined | cetmix_tower_server/models/cx_tower_key.py:161-174 | the replacements one after the other act on each piece of the code alone |
| KeyParsing.MarkersOfPieces | cetmix_tower_server/models/cx_tower_key.py:196-230 | in code made of markers and plain text the scan finds exactly the markers |
| KeyParsing.SequentialIsSimultaneous | cetmix_tower_server/models/cx_tower_key.py:155-174 | sequential replacement is simultaneous substitution exactly when no marker without a secret ends with one that has a secret |
| KeyParsing.NoSecretLeft | cetmix_tower_server/models/cx_tower_key.py:196-230 | after all replacements no marker that a scan finds has a secret |
| KeyParsing.SecondPassIdle | cetmix_tower_server/models/cx_tower_server.py:1595-1606 | parsing the parsed code again changes nothing |
| KeyReplacement.ParseCodeAndReturnKeyValues | cetmix_tower_server/models/cx_tower_key.py:128-180 | short code is left alone; else the secrets replace the markers in order of appearance, each value listed once; code of text and regular markers comes out as written, with the secrets in place, quoted on one line in Python mode, and nothing else changed or listed |
| KeyReplacement.RegularCodeFilled | cetmix_tower_server/models/cx_tower_key.py:155-180 | replacing one marker after the other fills each marker of a secret with it and no other place, whatever the order |
| KeyReplacement.HeldMarkerReplaced | cetmix_tower_server/models/cx_tower_key.py:174-174 | a marker that stands in a secret is replaced too if its secret comes later |
| KeyLookup.KeyPartsFound | cetmix_tower_server/models/cx_tower_key.py:257-274 | a marker written from a type and a reference is taken apart into them |
| KeyLookup.ResolvedIsSingle | cetmix_tower_server/models/cx_tower_key.py:232-255 | a marker that resolves to a secret holds no second prefix |
| KeyLookup.ShownIsSound | cetmix_tower_server/models/cx_tower_key.py:163-174 | secrets free of `#` and `!`, quoted or not, meet the conditions of the substitution theorems |
| KeyLookup.ParsedTwice | cetmix_tower_server/models/cx_tower_server.py:1595-1606 | with real look-ups, plain or quoted, a second pass changes nothing |
| KeyLookup.NestedMarkerTorn | cetmix_tower_server/models/cx_tower_key.py:174-174 | a concrete code on which sequential and simultaneous replacement differ |
| Masking.QuotingInverted | cetmix_tower_server/models/cx_tower_key.py:163-172 | masking looks for exactly the quoted secret if and only if it has no outer quote and no literal backslash and n |
| Masking.PlainInverted | cetmix_tower_server/models/cx_tower_key.py:380-383 | the same for a secret listed as it is |
| Masking.MaskedHidesAll | cetmix_tower_server/models/cx_tower_key.py:378-387 | a listed secret without asterisks is not left in a masked text, whatever else is listed and in whatever order |
| Masking.ReplaceWithSpoiler | cetmix_tower_server/models/cx_tower_key.py:358-387 | the loop hides every listed secret without asterisks, whatever else is listed, and leaves a text without secrets alone |
| Masking.SecretBecomesStars | cetmix_tower_server/models/cx_tower_key.py:380-387 | where a secret stood there are five asterisks, and the text around it stays |
| References.DecimalInjective | cetmix_tower_server/models/cx_tower_reference_mixin.py:295-295 | different numbers print differently |
| References.DecimalRead | cetmix_tower_server/models/cx_tower_reference_mixin.py:295-295 | a printed number is made of digits and reads back as itself |
| References.CollisionsTaken | cetmix_tower_server/models/cx_tower_reference_mixin.py:293-298 | n collisions need n taken references |
| References.GenerateOrFixReference | cetmix_tower_server/models/cx_tower_reference_mixin.py:250-300 | the search ends after at most as many collisions as references are taken, with the first free candidate, of allowed characters only |
| References.FreeSuffix | cetmix_tower_server/models/cx_tower_reference_mixin.py:281-300 | a taken reference gets the first of the suffixes `_2`, `_3` and so on that is free |
| References.CleanedAt | cetmix_tower_server/models/cx_tower_reference_mixin.py:264-279 | cleaning turns a blank into an underscore and a capital into a small letter, and drops what is then not allowed |
| References.PrePopulateReferences | cetmix_tower_server/models/cx_tower_reference_mixin.py:426-481 | in place, each record without a usable reference gets the next number of its parent |
| References.PopulatedReads | cetmix_tower_server/models/cx_tower_reference_mixin.py:456-481 | a reference with a letter or digit is kept; else it is that of the parent, or `no`, that of the model, and the number among the records that get one after this parent |
| References.GeneratedReferencesDistinctIff | cetmix_tower_server/models/cx_tower_reference_mixin.py:426-481 | for distinct parents, the generated references of a batch are pairwise distinct exactly if not both a record without a parent and one with the parent called `no` get one |
| Scheduler.CalledLater | cetmix_tower_server/models/cx_tower_scheduled_task.py:232-244 | the next call is later than now exactly when there is an interval |
| Scheduler.IntervalSizes | cetmix_tower_server/models/cx_tower_scheduled_task.py:232-244 | a minute is 60 seconds, an hour 60 minutes, a day 24 hours, a week 7 days |
| Scheduler.NumberSkipsCalls | cetmix_tower_server/models/cx_tower_scheduled_task.py:232-244 | except for months, a number n skips to the n-th call of the number 1 |
| Scheduler.StepKeepsInv | cetmix_tower_server/models/cx_tower_scheduled_task.py:273-296 | every step of every worker keeps tasks apart, reserved rows marked or locked, and finished ones settled |
| Scheduler.NoTaskTwice | cetmix_tower_server/models/cx_tower_scheduled_task.py:162-211 | over any interleaving no task is executed by two workers at once, and none is kept from writing its result |
| Scheduler.CommitSettles | cetmix_tower_server/models/cx_tower_scheduled_task.py:202-211 | a worker that ends normally leaves its tasks free and due one interval after their finish |
| Scheduler.StuckIff | cetmix_tower_server/models/cx_tower_scheduled_task.py:170-182 | a step leaves a task reserved without a worker exactly if it is a cron worker that breaks off holding it |
| Scheduler.AbortedIsLost | cetmix_tower_server/models/cx_tower_scheduled_task.py:170-182 | the tasks of a cron worker that breaks off after its commit stay reserved in every later run, and no worker executes them |
| Scheduler.StuckForever | cetmix_tower_server/models/cx_tower_scheduled_task.py:277-288 | a row left reserved without a worker stays as it is in every run |
| Scheduler.TaskTable.SelectFree | cetmix_tower_server/models/cx_tower_scheduled_task.py:277-290 | the selection gives exactly the rows that are neither running nor locked, in id order |
| Scheduler.TaskTable.ReserveTasks | cetmix_tower_server/models/cx_tower_scheduled_task.py:273-296 | reserving takes exactly the free unlocked rows, in id order and up to the limit, as a step of the machine |
| Scheduler.TaskTable.FinishTask | cetmix_tower_server/models/cx_tower_scheduled_task.py:202-211 | writing a result is never blocked and is a step of the machine |
| Scheduler.TaskTable.Run | cetmix_tower_server/models/cx_tower_scheduled_task.py:162-211 | an uninterrupted run settles exactly the free tasks and changes nothing else |
| ServerDeletion.RemovedOnlySo | cetmix_tower_server/models/cx_tower_server.py:333-369 | in any run such a server goes only by force, by a delete plan that ended with 0, or by a repeated deletion while the plan runs |
| ServerDeletion.DeletionUndisturbed | cetmix_tower_server/models/cx_tower_plan_log.py:270-280 | whatever happens meanwhile to other servers and plans, a delete plan that ends later with a status leads to the same as one that ends at once with it |
| DeletePlanRun.DeleteServer | cetmix_tower_server/models/cx_tower_server.py:333-369 | on the engine: both ways the logs are those of the loop; without the queue the status found at once is that of the run, with it the first log of the delete plan to finish decides, which is the run's own unless the plan calls itself |
| DeletePlanRun.DecidedBy | cetmix_tower_server/models/cx_tower_plan_log.py:249-280 | a run that has become a job ends with the finish of a log of its plan, and unless the plan calls itself no other one finishes before |
| ServerDeletion.Servers.UnlinkServers | cetmix_tower_server/models/cx_tower_server.py:333-369 | collecting the servers and removing them at the end is deleting them one after the other |

## Left out

- The database layer of Odoo, access rights, translations, computed fields, transactions beyond the locks and the commit
  of the scheduler; SSH and file transfer, the job queue itself, web hooks, notifications, JavaScript.
- Jinja, expression evaluation and regular expressions in general: uninterpreted functions, and plain placeholders for
  the rename.  A template with other Jinja syntax is outside the rename theorems, and so are the functions that Jinja
  itself defines (`range`, `dict` and the like), which a name without a value may stand for.
- VariableRename.UnchangedSafeIff: for templates that do not use the new name, which no variable had before.
- One server: flight plan logs, running checks and variables are those of one server.
- Exit codes -303 and -304, which the callback chain cannot reach while a plan log stands at a line of its plan.
- `server_status` writes, labels, clocks, log messages, the link to the log that triggered a plan, `no_command_log`.
- The walk that decides whether a plan fits a server: its verdict is a field of the plan.
- Exceptions while rendering a command or running a nested plan.
- Locks that cannot be taken, and timeouts, when a queued result is written.
- Commands without a plan under the queue.
- Comparisons of exit codes with anything but whole numbers.
- PlanEngine.Tower.RunFlightPlan: asks that unprotected calls go down in some rank, as all of `PlanLoop`, `PlanEngine` and `PlanTrace` does, because a run around a cycle of them need not end.
- PlanVerdict.FlatRunTold: for plans that call no other; the rule of any line is `RuleTold`, and what a called plan hands on is `PlanTrace.NestedStatusIsExitCode`.
- PlanVerdict.MatchedValues: for commands that leave the server variables alone; `FlatRunTold` has the variables line by line for all others.
- PlanDeterminism.LaunchedEndsAsLoop: for one launched plan; runs of several at once keep the invariants of `PlanMachine` but need not come to what one of them alone would.
- PlanDivergence.EndsExactlyIfWellFormed: holds where the unconditional lines before an unprotected call run compatible commands that are no plans; which exit codes a nested plan can end with is not decided.
- PlanQueue.QueuedTower.StopCommandRun: for plans that no other plan called; the stop of a nested command is `StopNestedCommand`, and the stop of its plan log, which the code looks at after the remaining lines, is the later step `StopPlanRun`.
- DeletePlanRun.DeleteServer: when a nested log of the delete plan decides early, the rest of the run still takes its course, because removing a server in the middle of its run is not modelled.
- YamlFaults.RoundTripIff: asks that records have data, because one made from a bare reference equals an exported record without any.
- YamlOwnership.SelectionResolves: single owners are sufficient only; the exact condition is on the file, in `YamlFaults.RoundTripIff`.
- YamlOwnership.RoundTripInEveryMode: the same condition on the records, sufficient only.
- YamlStore.PostProcessRecordValues: records have references, access levels are not renamed, and children are not cut to references by option.
- YamlStore.Database.PostProcessYamlDictValues: without access levels, unsupported keys and their errors.
- YamlStore.Database.ProcessValue: a value given as a plain string reference is not modelled, because an export that explodes related records writes none.
- YamlStore.Database.UpdateOrCreateRelatedRecord: documents without a reference are not modelled, because every exported record has one.
- YamlExisting.UpdatedLinks: for entries in which the record is not written out again behind its own fields, and in which no field is named twice, as in any YAML mapping.
- YamlExisting.SkippedStays: a record written out behind a field is not skipped, because the code skips top-level entries only.
- YamlRoundTrip.ExportCollects: export is specified for acyclic records with references, children exploded and empty values kept.
- The YAML text itself, names of access levels, required fields, and the update of references when a record is written.
- Removing a one2many child from its former parent when it is linked to another one.
- References.GenerateOrFixReference: the clean-up of a name treats ASCII letters and blanks only, because case folding beyond ASCII is not modelled.
- Distinct references for equal names in one batch, which the code does not promise.
- KeyReplacement.ParseCodeAndReturnKeyValues: the order in which values of a key are tried for a partner and a server is left out; secrets are one map by reference.
- The vault's hook for keys, which stores secrets in values of the key.
- Variable values are resolved for one record at a time.
- VariableResolution.GetVariableValues: asks that the variables asked for, and those they need, do not depend on themselves, because on a cycle the code recurses without end.
- Masking.ReplaceWithSpoiler: a secret that holds an asterisk may be left, because the placeholder itself consists of asterisks.
- KeyReplacement.RegularCodeFilled: asks that no secret put in place holds `#!` or starts with `!`, because such a secret may make up a marker with what stands around it; one that does can be harmless all the same, so the condition is sufficient only.
- KeyParsing.SecondPassIdle: holds for text between markers and secrets without `#` and `!`, because these may form new markers.
- Scheduler.NoTaskTwice: a row changed since the snapshot of a worker counts as changed before, because the database would otherwise make the worker fail.
- Scheduler.CalledLater: months are added by a function that moves forward, because calendars are not modelled.
- ServerDeletion.RemovedOnlySo: the delete plan of a server stays the same, because edits of the server are not modelled.
- The list of scheduled tasks that are due: a worker may be given any tasks.
