# Motoras, verified in Dafny

This project models the parts of Motoras whose correctness is hard to see from
the code, and proves what they promise. `dafny verify dfyconfig.toml` checks all
of it.

- **Trigger ownership** (`internal/trigger/service.go`, `lock.go`). Any number of
  service instances share one lock server. Each runs `Start`, one update
  listener, and one worker per trigger; every point at which another goroutine
  may interfere separates two steps of a transition system (`Protocol`). A run is
  any sequence of enabled steps of any instances.
  The proofs follow *lock tokens*: one token is one release still owed to the
  lock server, held by a worker, by the listener in mid-hand-over, or by nobody
  after a release that failed. `ServiceObject` is the same service as a class
  over worker objects, changed in place, whose every atomic section, from taking an
  update to `wg.Done`, is shown to be one step of the protocol.
- **Expressions** (`internal/expression/expression.go`). The `{{...}}` scanner,
  templates taken apart and put together, evaluation, and the walker that
  rewrites tagged fields of a copied struct in a memory of cells.
- **Workflow runner** (`internal/workflow/workflow.go`, `env.go`). Steps over one
  growing environment, with durable records, crashes at any point and replay.
- **Docker logs** (`internal/workflow/step_container.go`). The frame demultiplexer.
- **Migrations** (`internal/trigger/store_postgres.go`). One run, and any number
  of starters interleaved, failing and crashing.
- **Git polling** (`internal/trigger/subscribers/git/subscriber.go`). What is
  remembered between polls and what is sent over a whole run.

## What holds only under conditions

*Mutual exclusion* of workers over all instances needs three things of a run.
(A) No restart fails. (B) The listener sets `skipCleanup` before the worker it
replaces reads the flag. (C) The triggers that `Start` loads have distinct
internal ids, as `BIGSERIAL` makes them. Given (C), hold counts, tokens, the map
and hand-overs stay in order at every point of a run if and only if (A) and (B)
hold along it (`SoundThroughoutExactly`); after a failed restart the counts may
still balance, but a dead worker is left in the map as if it held the lock. For
every start, (C) is exactly what keeps the runs with (A) and (B) free of two
active workers for one trigger (`DistinctIDsExactly`). From every sound world in
which a hand-over is about to come too late, or a restart has just failed and
another update of the id comes next, the instance can go on by itself to an active
worker whose lock it does not hold (`LateHandOverLoses`, `FailedRestartLoses`), and
there are runs from the start on which another instance then runs the same trigger
(`LateHandOverOverlaps`, `FailedRestartOverlaps`). Without (A) and (B) it still
holds within one instance that no worker is orphaned (`NoOrphanWorkers`).

*Documentation and code disagree* in two places, and the model follows the
code. The git subscriber's README says that each commit triggers once: this holds
exactly when the branch never comes back to a head it had left
(`OncePerCommitExactly`, `RevisitedCommitRepeats`). The comment in `Parse` says
that it avoids modifying the original: memory behind nested pointers is shared
with it. It stays as it was for every evaluator exactly if no tagged field there,
up to the first that is always rejected, is one an evaluator can change
(`ParseKeepsForEvery`); for one evaluator, exactly if every visited cell comes back
to itself (`ParseKeepsExactly`); and it can change although the call fails
(`ParseChangesOnError`). A cell that several pointers lead to is rewritten once for
each visit (`ParseExactly`).

*Migrations* need distinct versions: they are exactly what a first run needs
(`FreshRunExactly`), and of files with one version only the first is ever
applied, while later runs come to report success (`SharedVersionIsLost`,
`RerunsSucceed`).

*Template evaluation* distributes over concatenation exactly when no match can
begin in the left part and end in the right one (`DistributesExactly`).

## What is taken as given

PostgreSQL's session advisory locks are counted and re-entrant, and unlocking a
lock that is not held changes nothing (section 13.3.5, "Advisory Locks", of the
PostgreSQL 17 documentation). A transaction commits as a whole or not at all, and
the key of the migrations table is unique. The durable-step library hands back a
recorded output in place of executing the step at that position again. The
expression library, the formatting of values other than strings and nil, and
assignability to map types are arbitrary functions. Updates, events, failures
and answers of foreign calls are arbitrary inputs of a run.

## Model

| member | source | states |
|---|---|---|
| `AdvisoryLock.TryLock` | internal/trigger/lock.go:38-43 | taking a lock adds one to this session's count for the key, if it succeeds, and changes no other count |
| `AdvisoryLock.Unlock` | internal/trigger/lock.go:45-48 | a release subtracts one from a positive count and is otherwise a no-op |
| `AdvisoryLock.TryLockKeepsExclusive` | internal/trigger/lock.go:38-43 | the lock is granted exactly when no other session holds the key, so at most one session ever holds it |
| `AdvisoryLock.UnlockKeepsExclusive` | internal/trigger/lock.go:45-48 | a release never lets two sessions hold one key |
| `Protocol.WorkerTouchesOne` | internal/trigger/service.go:291-349 | a worker's step changes no other worker, no configuration and no flag, and takes at most its own entry out of the map, and only after its exit |
| `NoOrphans.StepKeeps` | internal/trigger/service.go:199-349 | every step, also in runs with failed restarts and lost races, keeps: live workers are the map entries of their ids and run the configuration last taken |
| `NoOrphans.ShutdownCancels` | internal/trigger/service.go:176-180 | a call of Shutdown cancels exactly the workers in the map, leaves each other worker as it was, and so leaves none live |
| `NoOrphans.StepRevivesNone` | internal/trigger/service.go:199-349 | no step makes a worker live again that was cancelled or past its exit |
| `Ownership.StepBalances` | internal/trigger/service.go:206-231 | every step changes the tokens of an id by what its lock call does to the hold count, except a hand-over that comes too late, which makes one token too many |
| `Ownership.StepHandsOver` | internal/trigger/service.go:206-317 | every step but a late hand-over or a failed restart keeps each owned worker replaceable: its cleanup undecided, or its token in the listener's hands |
| `MutualExclusion.LateHandOverBreaks` | internal/trigger/service.go:213-215 | a flag set after the old worker has read it always leaves one token more than the lock is held |
| `MutualExclusion.FailedRestartBreaks` | internal/trigger/service.go:219-225 | the second release after a failed restart always leaves a dead worker with its flag set in the map, though nobody is replacing it |
| `MutualExclusion.SoundStepByStep` | internal/trigger/service.go:199-317 | a step of any instance keeps hold counts, tokens, the map and hand-overs in order if and only if it is neither a late hand-over nor the end of a failed restart |
| `MutualExclusion.SoundThroughoutExactly` | internal/trigger/service.go:199-317 | hold counts, tokens, the map and hand-overs stay in order at every point of a run if and only if (A) and (B) hold along it |
| `MutualExclusion.AtMostOneWorker` | internal/trigger/service.go:206-317 | in every interleaving under (A), (B), (C) there is at most one live worker per trigger over all instances, its instance holds the lock and no other instance does |
| `MutualExclusion.HoldCount` | internal/trigger/service.go:210-317 | under (A), (B), (C) the hold count of an instance and id is the number of its workers still owing a release, plus the token in mid-hand-over, plus the releases that failed |
| `MutualExclusion.NoOrphanWorkers` | internal/trigger/service.go:206-309 | with distinct ids only, in every run: each live worker is the map entry of its id and the only live worker of that id in its instance |
| `MutualExclusion.ConfigurationAgreement` | internal/trigger/service.go:157-231 | with distinct ids only: whenever the listener is not in mid-hand-over every live worker runs with the last configuration taken for its id |
| `MutualExclusion.ShutdownIsForGood` | internal/trigger/service.go:175-187 | with distinct ids only: wherever a run has got to, a call of Shutdown leaves no live worker, and none of those there were is ever live again |
| `WaitGroup.StepCounts` | internal/trigger/service.go:182-350 | every step keeps the wait-group counter equal to the live listener plus the unfinished workers, and closing after all of them are gone |
| `WaitGroup.NothingSentAfterClose` | internal/trigger/service.go:182-186 | once the event channel is closed no goroutine is left to send or to start a worker, and the stream of events grows no more |
| `WaitGroup.NoSendAfterClose` | internal/trigger/service.go:182-197 | over every run, with no assumption: the counter is exact, and a closed channel means every worker has finished |
| `WaitGroup.CleanDrain` | internal/trigger/service.go:175-187 | under (A), (B), (C), past the wait the map is empty and exactly the locks whose release failed are still held; so none is held if and only if no release failed |
| `Events.StepConserves` | internal/trigger/service.go:321-348 | every step keeps: sent is received minus at most the event in hand or lost to cancellation, and the channel's stream projects to each worker's sent events |
| `Events.EventConservation` | internal/trigger/service.go:327-348 | over every run: sent events are a prefix of received ones, short of them by one at most and only while sending or after cancellation; consumed plus buffered is an interleaving of exactly these, within capacity, each carrying its worker's configuration |
| `Events.ConsumerSeesPrefix` | internal/trigger/service.go:334-341 | the events a consumer gets from one worker are, in order, a prefix of those that worker received |
| `Arrivals.EventsArrive` | internal/trigger/service.go:321-348 | over every run: what a worker received, followed by its inbox, is exactly what its subscriber emitted, in order and with the worker's configuration; what it sent is a prefix, and all of it if the worker ended uncancelled |
| `Arrivals.ConfigurationsInOrder` | internal/trigger/service.go:157-231 | over every run: Start and the listener take the snapshot and then the updates in the order of arrival, all but those still ahead unless Start has failed, and `last` is the last one taken for each id |
| `Termination.StepDecreases` | internal/trigger/service.go:175-349 | every step except an arrival uses up the measure of pending updates, control, phases and pending events |
| `Termination.CanStillMove` | internal/trigger/service.go:182-348 | with the context done and the counter positive, the instance's own goroutines can move, with a full channel, no consumer and any lock answers |
| `Termination.MovesAreBounded` | internal/trigger/service.go:175-349 | along any run without arrivals an instance takes at most as many steps as its measure |
| `Termination.ShutdownTerminates` | internal/trigger/service.go:167-187 | with the context done and somebody about to call Shutdown or inside it, the instance takes at most its measure of steps whatever the others do, and where it can go no further the channel is closed and every caller has returned |
| `Termination.ContextClosesChannel` | internal/trigger/service.go:167-187 | from every reachable state in which `Start` has returned without an error and the context is done, unless something arrives the channel ends up closed within the measure and all goroutines gone |
| `Necessity.DistinctIDsExactly` | internal/trigger/service.go:157-161 | for every start: no run with (A) and (B) has two active workers for one trigger if and only if the ids of each snapshot are distinct |
| `Necessity.RepeatedIDOverlaps` | internal/trigger/service.go:157-161 | from every start with a snapshot that repeats an id, some run with (A) and (B) has two active workers for it |
| `Necessity.LateHandOverLoses` | internal/trigger/service.go:206-219 | from every sound world about to hand over too late, with the context running and no failed release of the id, the instance can go on by itself, with nothing else bad, to an active worker whose lock it does not hold |
| `Necessity.FailedRestartLoses` | internal/trigger/service.go:206-225 | from every sound world at the end of a failed restart, with another update of the id next and the flag not yet read, the instance can go on by itself, with nothing else bad, to an active worker whose lock it does not hold |
| `Witnesses.FailedRestartOverlaps` | internal/trigger/service.go:218-225 | there is a run from the start with one failed restart, (B) and (C) on which two instances are active for one trigger |
| `Witnesses.LateHandOverOverlaps` | internal/trigger/service.go:206-216 | there is a run from the start with one late hand-over, (A) and (C) on which two instances are active for one trigger |
| `Walks.WalkIsRun` | internal/trigger/service.go:199-349 | what one instance does uninterrupted is a run of any world it is part of |
| `ServiceObject.Service.BeginShutdown` | internal/trigger/service.go:176-182 | cancelling every owned worker under the mutex is one protocol step |
| `ServiceObject.Service.ContextDone` | internal/trigger/service.go:167-170 | the goroutine of `Start` calls Shutdown in one protocol step |
| `ServiceObject.Service.StartTriggerWorkerInternal` | internal/trigger/service.go:250-352 | takes exactly the protocol's launch steps for the lock table and the failures it meets, and fails exactly when an acquire or a needed build fails |
| `ServiceObject.Service.RestartWorker` | internal/trigger/service.go:210-225 | takes exactly flag, cancel, launch without acquiring, and the second release after a failure |
| `ServiceObject.Service.HandleUpdate` | internal/trigger/service.go:201-231 | one turn of the listener takes exactly the protocol's steps for an owned or an unknown id and consumes one update |
| `ServiceObject.Service.HandleUpdates` | internal/trigger/service.go:199-231 | as many turns as there are updates and fates, each with exactly the steps for the map and lock table of that moment; one walk of listener and launch steps |
| `ServiceObject.Service.Listen` | internal/trigger/service.go:196-237 | those turns and then, exactly when the context is done or the updates are closed, the listener's end; it waits only without updates |
| `ServiceObject.Service.StartTriggers` | internal/trigger/service.go:157-161 | the triggers of the snapshot are started in order, each with exactly the steps for the lock table the earlier ones left, up to the first that fails |
| `ServiceObject.StartExactly` | internal/trigger/service.go:157-161 | a snapshot starts exactly when every acquire works and every trigger whose lock no other session held at the outset can be built; a lock held elsewhere is no failure |
| `ServiceObject.Service.Start` | internal/trigger/service.go:157-172 | the body of `Start` takes those steps and, if all triggers start, the subscription's, to the listening and watching or the failed state; it succeeds exactly when all triggers start and the store accepts the subscription |
| `ServiceObject.Service.CleanUp` | internal/trigger/service.go:292-317 | the deferred functions take exactly the protocol's cleanup steps; the lock is given up once without the flag and not touched with it |
| `ServiceObject.Service.Forward` | internal/trigger/service.go:327-348 | exactly how many events go out, which, and under which worker; the loop exits exactly when its context is done or the source is closed and drained, and otherwise waits uncancelled for an event or a free slot |
| `ServiceObject.Service.RunWorker` | internal/trigger/service.go:291-349 | if subscribing fails the worker ends having sent nothing; otherwise exactly those events go out, and it ends exactly when its context is done or all that was there is sent and the source closed; at its end the lock is given up unless the flag is set |
| `TemplateScan.MatchEndExactly` | internal/expression/expression.go:185-185 | the end found for a start is the one and only end at which the pattern matches there |
| `TemplateScan.FindExactly` | internal/expression/expression.go:185-190 | the search returns the first start of a match at or after a position, and none exactly if there is none |
| `TemplateScan.ScanExactly` | internal/expression/expression.go:185-190 | the scan is the only in-order, disjoint list of matches such that no match starts outside them |
| `TemplateSplit.TakeFirst` | internal/expression/expression.go:190-192 | text, body and remainder of the first match put together are the template |
| `TemplateSplit.PrintSplit` | internal/expression/expression.go:184-202 | splitting any template and printing the parts restores it |
| `TemplateSplit.SpansAreScan` | internal/expression/expression.go:190-202 | the expressions taken out stand exactly where the scan's matches are |
| `TemplateSplit.SplitIsCanonical` | internal/expression/expression.go:184-202 | every split is canonical: text neither contains a match nor runs into the next one, bodies are non-empty without a closing brace |
| `TemplateSplit.SplitPrintExactly` | internal/expression/expression.go:184-202 | printing a template in parts and splitting again restores it if and only if it is canonical |
| `TemplateEval.EvaluateTemplate` | internal/expression/expression.go:183-209 | the replacement loop computes `Evaluated`, which `TemplateMeaning`, `FailureMessage` and `TemplateOfName` characterise |
| `TemplateEval.ReplaceMatch` | internal/expression/expression.go:190-202 | the callback gives the shown value, or the match itself and one error |
| `TemplateEval.ErrorsInOrder` | internal/expression/expression.go:187-206 | the errors are those of the failing bodies, each once, from left to right; there are none exactly when all bodies evaluate |
| `TemplateEval.FailureMessage` | internal/expression/expression.go:204-206 | a template fails exactly when some body does, with the errors of all failing bodies joined in order |
| `TemplateEval.JoinAppends` | internal/expression/expression.go:205-205 | joining two lists of messages puts the separator between the two parts and keeps their order |
| `TemplateEval.TemplateMeaning` | internal/expression/expression.go:183-209 | evaluation succeeds exactly when every expression does, and then gives the template with the values filled in |
| `TemplateEval.ValuesAreNotRescanned` | internal/expression/expression.go:190-202 | values that are themselves expressions in braces stay as they are |
| `TemplateLookup.TrimExactly` | internal/expression/expression.go:192-192 | trimming takes blanks off both ends and nothing else |
| `TemplateLookup.EnvironmentExactly` | internal/expression/expression.go:218-228 | the names of an expression are `data` and the keys of a map; a key that is `data` wins |
| `TemplateLookup.NameExactly` | internal/expression/expression.go:212-242 | with an engine that looks names up, a name evaluates to a value if and only if the data gives it that value |
| `TemplateLookup.BlankIsNil` | internal/expression/expression.go:214-216 | an expression of blanks alone is nil, and the engine is not asked |
| `TemplateLookup.TemplateOfName` | internal/expression/expression.go:183-209 | a template of text around one name, with any blanks inside the braces, gives the text with the name's value written in, or the error naming the unknown name |
| `TemplateConcat.StraddlingMakesMore` | internal/expression/expression.go:185-190 | text that could still become a match becomes one for some continuation |
| `TemplateConcat.SplitConcatExactly` | internal/expression/expression.go:185-190 | the split of a concatenation is the splits one after the other, for every right part, if and only if nothing straddles the boundary |
| `TemplateConcat.DistributesExactly` | internal/expression/expression.go:183-209 | evaluation distributes over concatenation for every evaluator and right part if and only if nothing straddles the boundary |
| `TemplateConcat.EvaluationDistributes` | internal/expression/expression.go:183-209 | at such a boundary the whole succeeds exactly when both parts do, with their outputs one after the other |
| `TemplateConcat.FailuresDistribute` | internal/expression/expression.go:204-206 | where both parts fail the message of the whole is the first part's followed by the second part's errors |
| `StructFrame.WalkKeepsSkeleton` | internal/expression/expression.go:48-96 | a walk, failing or not, keeps every name, tag and pointer |
| `StructFrame.WalkFrame` | internal/expression/expression.go:48-96 | a walk changes no cell other than those it reaches through untagged structs and pointers |
| `StructSpots.SkeletonSpots` | internal/expression/expression.go:48-96 | which fields are evaluated, and in which order, depends on names, tags and pointers alone |
| `StructSpots.SpotsExactly` | internal/expression/expression.go:48-92 | the fields evaluated are exactly the tagged ones of the struct walked and of the cells visited, inside untagged structs or not |
| `StructSpots.WalkIsPlay` | internal/expression/expression.go:48-180 | the recursive walk is the flat sequence of these evaluations, each on what the earlier ones left, up to the first that fails, with copy and memory as the ones before it left them |
| `StructLookup.SourceExactly` | internal/expression/expression.go:109-124 | a field is read as its text, its value written out, or nothing for nil |
| `StructLookup.DefaultByName` | internal/expression/expression.go:106-180 | a `default` field that holds a name takes the name's value: written out in a string, itself in `any`, and in a map if it can be assigned |
| `StructLookup.TemplateByName` | internal/expression/expression.go:106-180 | a `template` field that holds a name in braces takes the value written out |
| `StructLookup.CauseExactly` | internal/expression/expression.go:106-180 | which error a tagged field is rejected with, for each tag and kind |
| `StructLookup.ErrorsNameTheField` | internal/expression/expression.go:81-92 | a field that cannot be rewritten keeps its contents, and its error names it; it is refused outright exactly if it is neither string, `any` nor map |
| `StructPass.PassExactly` | internal/expression/expression.go:107-180 | a struct's rewriting exists and is unique exactly when its tagged fields all evaluate |
| `StructPass.WalkExactly` | internal/expression/expression.go:48-180 | a walk succeeds exactly when its depth covers the pointers, the struct can be rewritten, and every cell can be rewritten as often as it is visited; then the copy is rewritten once and every cell that often |
| `StructDepth.NoCycle` | internal/expression/expression.go:71-79 | pointers that a depth covers form no cycle |
| `StructStir.FixedExactly` | internal/expression/expression.go:107-180 | every evaluator leaves a field that is not always rejected alone if and only if it is a text without expressions under `template`, or nil under `default` |
| `StructKept.MemoryKeptExactly` | internal/expression/expression.go:48-180 | a walk leaves memory as it was, whatever the evaluator and data, if and only if up to the first field that is always rejected every tagged field behind a pointer is one no evaluator can change |
| `StructParse.WalkLeavesMemory` | internal/expression/expression.go:63-79 | if no visited cell has a tagged field, the memory is left as it was |
| `StructDepth.DepthIsIrrelevant` | internal/expression/expression.go:71-79 | once the depth covers the pointer chains, more depth changes nothing |
| `StructParse.ProcessStruct` | internal/expression/expression.go:48-96 | the loop over the fields computes the walk and its memory, stopping at the first error |
| `StructParse.ProcessField` | internal/expression/expression.go:52-92 | one field is skipped, entered, followed or evaluated as the walk says |
| `StructParse.Parse` | internal/expression/expression.go:16-45 | `Parse` returns a walked copy in a fresh cell, or the argument and the error |
| `StructParse.ParseFrame` | internal/expression/expression.go:16-45 | on any error the argument itself comes back; cells not visited are unchanged; if no tagged field lies behind a nested pointer, every cell of the caller is unchanged |
| `StructParse.ParseExactly` | internal/expression/expression.go:16-45 | `Parse` succeeds exactly when the struct and every cell can be rewritten as often as they are visited, and then returns the copy rewritten, each cell rewritten that often and nothing else changed |
| `StructParse.ParseStops` | internal/expression/expression.go:36-38 | when it fails the argument comes back with the error of the first spot that fails on what the evaluations before it left, and memory is as those left it |
| `StructParse.ParseKeepsExactly` | internal/expression/expression.go:17-38 | a successful call leaves the caller's memory as it was if and only if every visited cell comes back to itself when rewritten as often as it is visited |
| `StructParse.ParseKeepsForEvery` | internal/expression/expression.go:17-38 | the comment's promise: `Parse` leaves the caller's memory as it was for every evaluator and data, failing or not, if and only if up to the first always rejected field every tagged field behind a pointer is one no evaluator can change |
| `StructParse.ParseChangesOnError` | internal/expression/expression.go:71-79 | wherever an always rejected field comes after one behind a pointer that can be changed, some evaluator makes the call fail with the caller's memory changed |
| `StructParse.VisitedTwiceEvaluatedTwice` | internal/expression/expression.go:71-79 | a cell visited twice is evaluated twice, the second time on the first result |
| `DockerLogs.SizeIsBigEndian` | internal/workflow/step_container.go:319-319 | the shift/or of the four bytes is their big-endian base-256 value |
| `DockerLogs.StripDockerLogHeaders` | internal/workflow/step_container.go:310-332 | the loop computes the frame-by-frame stripping |
| `DockerLogs.StripFrames` | internal/workflow/step_container.go:313-329 | whole frames yield their payloads and whatever follows is stripped on its own |
| `DockerLogs.StripEncoding` | internal/workflow/step_container.go:310-332 | stripping the encoding of any frames with payloads below 2^32 bytes yields the payloads |
| `DockerLogs.StripTruncated` | internal/workflow/step_container.go:314-325 | stripping any truncation of it yields the payloads of the frames wholly present |
| `DockerLogs.FrameParse` | internal/workflow/step_container.go:313-329 | any bytes are whole frames followed by something that does not begin with one |
| `DockerLogs.StripAnyBytes` | internal/workflow/step_container.go:310-332 | stripping any bytes yields the payloads of that longest frame parse |
| `Workflow.Environment.New` | internal/workflow/env.go:7-13 | a new name gets a placeholder, a known one an error and no change |
| `Workflow.Environment.ValidateStep` | internal/workflow/workflow.go:30-32 | validation fails without a change, or leaves the placeholder |
| `Workflow.Steps` | internal/workflow/workflow.go:27-50 | the loop computes the run with its journal, wherever it crashes, and finishes if the records and the budget cover the steps |
| `Workflow.RunExtends` | internal/workflow/workflow.go:35-42 | a session only adds to the journal, executes in order and once each only steps without a record, and records all of them but perhaps the last |
| `Workflow.CrashUsesBudget` | internal/workflow/workflow.go:27-50 | a session that crashes has recorded one more step for every two units of its budget, and executed one in vain for an odd one |
| `Workflow.RunFinishes` | internal/workflow/workflow.go:27-50 | a session whose budget covers the steps without a record finishes |
| `Workflow.SessionsFaithful` | internal/workflow/workflow.go:35-42 | after any sessions the records are those of executions on what the steps before them left |
| `Workflow.CrashReplay` | internal/workflow/workflow.go:27-50 | after any number of crashes anywhere, a run that ends gives the result of one straight run at the recorded execution times, and executes no recorded step again |
| `Workflow.ReplayEqualsUncrashed` | internal/workflow/workflow.go:27-50 | with executions that do not depend on time, it gives the result of the run that never crashed |
| `Workflow.FinishedIsStable` | internal/workflow/workflow.go:27-50 | running a finished workflow again executes and records nothing and gives the same result |
| `WorkflowMeaning.EnvContents` | internal/workflow/workflow.go:35-42 | each distinct name is bound to its own step's result |
| `WorkflowMeaning.SuccessExactly` | internal/workflow/workflow.go:16-50 | a workflow succeeds exactly when all steps validate, names are distinct and each execution succeeds on the results before it and its own placeholder; the result binds the names to the values |
| `WorkflowMeaning.FailureExactly` | internal/workflow/workflow.go:16-50 | a workflow fails exactly when the steps before some step are done and that one is refused, for its name, options or a name used before, or its execution fails; and with that error |
| `WorkflowMeaning.SessionExactly` | internal/workflow/workflow.go:27-50 | after any crashes, a session with enough budget finishes, with success and environment or failure and error exactly as the steps and the recorded times have it |
| `WorkflowMeaning.NothingRunsAfterFailure` | internal/workflow/workflow.go:43-45 | a recorded failure is the last record, and every later session ends with it and executes nothing |
| `Migrations.InsertSorted` | internal/trigger/store_postgres.go:305-308 | insertion keeps the order by version and adds exactly one migration |
| `Migrations.LessExactly` | internal/trigger/store_postgres.go:305-308 | the order is the dictionary's: a proper prefix first, otherwise by the first byte that differs |
| `Migrations.VersionOfExactly` | internal/trigger/store_postgres.go:296-296 | the version is the part of the file name before its first underscore, or the whole name |
| `Migrations.SQLExactly` | internal/trigger/store_postgres.go:288-288 | the files taken are the ones, not directories, whose name ends in `.sql` |
| `Migrations.ParsedExactly` | internal/trigger/store_postgres.go:286-303 | a migration is loaded exactly if some SQL file has that version and content |
| `Migrations.LoadMigrations` | internal/trigger/store_postgres.go:279-311 | the list is a sorted permutation of the parsed SQL files |
| `Migrations.Connection.RunMigrations` | internal/trigger/store_postgres.go:247-277 | without table, files or applied versions the run fails and changes nothing; otherwise the loop computes the sequential run and its database |
| `Migrations.RunExactly` | internal/trigger/store_postgres.go:260-277 | with working contents a run succeeds exactly when the pending versions are distinct and unrecorded, and then commits just those, in order |
| `Migrations.FreshRunExactly` | internal/trigger/store_postgres.go:247-277 | on a fresh database it succeeds exactly when all versions are distinct |
| `Migrations.FaultStops` | internal/trigger/store_postgres.go:266-274 | a pending migration that fails makes the run fail, with nothing committed but what was pending before it |
| `Migrations.CommittedUpToFault` | internal/trigger/store_postgres.go:266-274 | with distinct unrecorded versions before the first failing one, just those are committed |
| `Migrations.FirstsExactly` | internal/trigger/store_postgres.go:295-308 | the first files of each version have all versions, each once, and are all files exactly if no version is shared |
| `MigrationFleet.CommitIsNext` | internal/trigger/store_postgres.go:266-274 | whoever commits, it is the next first file of a version in the sorted list |
| `MigrationFleet.AtMostOnceInOrder` | internal/trigger/store_postgres.go:247-356 | for any list, under any interleaving, failures and crashes, each version is committed at most once, the recorded set is the committed one, the commits are a prefix of the first files of each version in order, and a starter that succeeded leaves none of these pending |
| `MigrationFleet.SharedVersionIsLost` | internal/trigger/store_postgres.go:266-274 | of files that share a version no run of any starters ever commits another than the first, also when they report success |
| `MigrationFleet.RerunsSucceed` | internal/trigger/store_postgres.go:247-277 | with working contents repeated runs come to succeed, with exactly the first file of each version committed |
| `MigrationFleet.CompleteStaysComplete` | internal/trigger/store_postgres.go:266-277 | after a complete run nothing changes the database |
| `MigrationFleet.LoopIsRun` | internal/trigger/store_postgres.go:266-277 | the sequential loop is a run of the fleet with one starter |
| `GitPoll.Subscriber.InitializeState` | internal/trigger/subscribers/git/subscriber.go:256-286 | fails exactly when the head or the watched tags cannot be read; otherwise remembers the head and the tags |
| `GitPoll.Subscriber.CheckNewCommits` | internal/trigger/subscribers/git/subscriber.go:316-364 | an event exactly for a readable head that differs from the last one, which is then remembered |
| `GitPoll.Subscriber.CheckNewTags` | internal/trigger/subscribers/git/subscriber.go:366-443 | an event for each readable tag first seen here, in order; every tag gone through is known afterwards |
| `GitPoll.Subscriber.PollOnce` | internal/trigger/subscribers/git/subscriber.go:139-166 | one tick sends the commit, then the tags; a failed fetch sends nothing; a cancelled send ends it with a prefix sent |
| `GitPoll.Subscriber.Poll` | internal/trigger/subscribers/git/subscriber.go:127-173 | over any ticks the events sent are those of the ticks in order, up to the send that was cancelled |
| `GitDedup.CommitsExactly` | internal/trigger/subscribers/git/subscriber.go:316-364 | the commits sent over a run are the readable heads after the initial one with consecutive repeats collapsed |
| `GitDedup.CollapseExactly` | internal/trigger/subscribers/git/subscriber.go:326-344 | collapsing repeats leaves the same heads and repeats one if and only if the branch returns to a head it had left |
| `GitDedup.OncePerCommitExactly` | internal/trigger/subscribers/git/subscriber.go:326-344 | no commit is announced twice, nor the initial one at all, if and only if the branch never returns to a head it had left |
| `GitDedup.RevisitedCommitRepeats` | internal/trigger/subscribers/git/subscriber.go:326-344 | a branch that goes back and forth announces one commit twice |
| `GitDedup.TagsExactly` | internal/trigger/subscribers/git/subscriber.go:366-443 | the tags sent over a run are those of one pass over all tags gone through, and the known tags are the initial ones and all of these |
| `GitDedup.OncePerTagExactly` | internal/trigger/subscribers/git/subscriber.go:376-434 | a name is announced once if it was not there initially and its tag resolves the first time it is seen, and never otherwise |
| `GitDedup.SentTagsOnce` | internal/trigger/subscribers/git/subscriber.go:157-164 | whatever part of the events is sent, no tag name comes twice and none from the initial set |
| `GitDedup.SentCommitsPrefix` | internal/trigger/subscribers/git/subscriber.go:147-152 | whatever part is sent, its commits are a prefix of the collapsed heads |
| `GitDedup.EventsTell` | internal/trigger/subscribers/git/subscriber.go:316-443 | every event of a run tells of a head or tag seen at one of its ticks: hashes, branch, message, author and time as that head or tag has them |
| `GitDedup.TagEventsTell` | internal/trigger/subscribers/git/subscriber.go:386-434 | a tag event has the tag's own hash and, if annotated, its target, tagger, message and time, otherwise the commit's |
| `GitDedup.OnlyFetchesCount` | internal/trigger/subscribers/git/subscriber.go:139-144 | ticks whose fetch fails send nothing and change nothing, wherever they lie in a run |
| `GitDedup.UnwatchedTags` | internal/trigger/subscribers/git/subscriber.go:155-158 | without watched tags no tag is ever sent or remembered |

## Left out

- ServiceObject.Service: its methods that span several sections are proved without interruption; interleaving is covered by the transition system, of which each section is one step.
- ServiceObject.Service.Start: the snapshot is an argument, so a failing `store.All` is not modelled; nothing has been started then.
- Termination.ShutdownTerminates: a subscriber that never returns from `Subscribe`, and a lock call that never returns, are not modelled; a step is a call that returns.
- Shutdown called by others while `Start` is still running: there is a race between the two, and the model has callers enter Shutdown after `Start` has returned.
- A failed acquire is taken to have taken no lock; a failed release is taken to have released none, and is accounted for.
- Stores may drop updates before they reach the listener; the updates of a run are those that arrive.
- The loss of a database session, which drops its locks, and thread safety of the connection.
- Regular expressions in general: only the one pattern; characters are abstract, so invalid UTF-8 is not modelled.
- expr-lang, `%v` of values other than strings and nil, and map assignability are uninterpreted; setting an interface field of another type than `any`, which panics, is not modelled.
- StructDepth.DepthIsIrrelevant: pointer cycles, on which the walker does not return, are not followed; the model's depth bound reports them as too deep.
- The steps' own Validate and Execute, and the serialisation of recorded environments.
- Frame sizes on 32-bit platforms, where the shift can overflow `int`.
- The order sort.Slice gives to equal versions, and rows of other modules in the migrations table.
- Cloning, fetching and authentication of git repositories; ticks and their timing.
- RPC handlers, configuration, logging, metrics, mock stores and the file-system store.
