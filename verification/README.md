# NetConfig: a verified model

NetConfig is a network configuration service. This project models the parts of it whose correctness a
handful of examples cannot settle, and proves what they are for.

- **Fleet campaigns** (`Saga`, `SagaCalls`, `SagaReentry`, `SagaRefailure`, `SagaInputs`, `Campaigns`,
  `CampaignWaves`, `CampaignService`, `CampaignSchedule`, `CampaignAttempts`, `CampaignControls`):
  configuration changes as transactions with compensation, rolled out in waves with a failure
  threshold, pause, resume, retry, abort, recovery and two layers of rollback. Calls change rows and a
  network in classes; their specification is one function from state to state, about which the
  invariants over all runs are proved. The network's behaviour is an arbitrary oracle of failures.
- **Distributed task queue** (`TaskQueue`, `TaskCalls`): claim, renew, finish, recover and requeue with leases,
  tokens and generations, by arbitrary workers with arbitrary clocks.
- **Configuration planner** (`ConfigParser`, `ConfigPlanner`): the indentation parser with its stack of
  heap nodes, and the plan that turns one configuration into another, run on a device that rejects
  idle and impossible commands.
- **Package format** (`Bytes`, `RpmHeader`, `RpmVectors`, `Cpio`, `CpioVectors`): the writer of the RPM builder
  against the separately written reader of its verifier, and both against bytes written out.
- **Ciphers** (`AesField`, `AesSbox`, `AesRounds`, `AesCipher`, `AesCfb`, `AesModes`, `AesVectors`, `ChaCha`,
  `ChaChaVectors`, `Poly1305`, `Aead`, `AeadVectors`): AES with its table construction, CFB-128, and
  ChaCha20-Poly1305, against FIPS 197, section 6.3 of NIST SP 800-38A and RFC 8439, and against the examples
  printed in those standards.
- **Correlation** (`DependencyGraph`, `DependencyExamples`, `Relatedness`, `Hypotheses`, `HypothesisRules`,
  `HypothesisStore`, `RunLedger`): the bounded dependency search, the relation between facts, the rules that make hypotheses,
  their upsert, and the ledger of runs.
- **Schema splitter** (`SqlScript`): the lexer that cuts the schema into statements, and the start-up that
  joins and runs them.

Code that updates state is modelled by methods with loops over arrays, heap nodes or class fields, each
proved against a function of its inputs or of the old state; the promises are then proved about that
function. `Common` holds options, white space and the sorting of integer sets.

What the proofs found where the code promises less than one might read into it:

- A run stopped by the network is always taken back, if its compensation meets no further refusal
  (`Saga.OneRefusalIsRestored`); a run stopped by a missing resource can be left half changed by one refusal
  (`SagaInputs.MissingMeetsRefusal`).
- A rollback leaves the transaction it undoes in state SUCCEEDED, and an interrupted target is started
  again under the same source (campaigns.py:296). A run that died during or after its compensation then
  passes over operations that are no longer on the device (`SagaInputs.UndoneOperationIsLost`);
  `SagaReentry.ReentryIsRightIffLedgerSaysSo` tells from the ledger when this does no harm. If the second run
  fails and compensates, no harm is done (`SagaRefailure.FailedAgainRestores`).
- After a process has died inside a wave, a wave over its threshold leaves the targets that had succeeded
  before as they are (`CampaignWaves.DeathLeavesSuccess`): exactly those (`CampaignWaves.FailedWaveLeaves`),
  and none when every call came to its end (`CampaignWaves.NoneSucceededAfter`).
- An open quote grows each time the schema is split and joined (`SqlScript.OpenQuoteGrows`); the splitter
  reaches a fixpoint exactly when all quotes are closed (`SqlScript.ResplitIffTerminated`).
- A baseline line that begins with the negation word is sent as the text of a removal, and executing the
  plan does not lead to the baseline (`ConfigPlanner.NegatedLineIsLost`). `ConfigPlanner.PlanIndented` gives
  the exact condition on the two texts, and where it fails no other lines would do
  (`ConfigPlanner.NoWordsForIt`).
- The archive reader accepts signed sizes and can be sent back to where it was for ever
  (`Cpio.LoopNeverEnds`); it ends exactly when it never returns to a position
  (`Cpio.RunsForEverIffReturns`).
- A file whose path is the archive's closing name ends the archive early, and equal paths merge
  (`Cpio.FilesGoMissing`); all files come back exactly when neither is the case (`Cpio.CompleteIffDistinct`).
- When the node limit cuts a dependency search, its last edge is marked as followed although the target
  was refused (`DependencyExamples.RefusedEdgeIsMarked`); `DependencyGraph.Graph` tells from the tables and
  limits when anything is cut.
- With more than 250 keys within four edges the relation of two facts can depend on their order
  (`Relatedness.OrderMattersBeyondBound`); `Relatedness.FindPath` bounds from both sides what is seen.

`dafny verify dfyconfig.toml` checks the project.

## Model

| member | source | states |
|---|---|---|
| `SqlScript.SplitSqlScript` | opt/netconfig/netconfig/db.py:1016-1066 | the scanning loop over index, buffer, open quote and comment flag returns exactly the statements of the script |
| `SqlScript.StatementsAreClean` | opt/netconfig/netconfig/db.py:1016-1066 | a script whose quotes are all closed yields only statements without an unquoted separator or comment |
| `SqlScript.CleanHidesMarks` | opt/netconfig/netconfig/db.py:1031-1062 | what a clean statement is, character by character: a separator, or two dashes in a row, stands only where a quote is open |
| `SqlScript.SplitJoinOfClean` | opt/netconfig/netconfig/db.py:1293-1299 | every list of clean statements, joined with separators and a final one, is split into the same list |
| `SqlScript.ResplitIffTerminated` | opt/netconfig/netconfig/db.py:1016-1066 | splitting the re-joined output gives the same list if and only if every quote of the script was closed |
| `SqlScript.OpenQuoteGrows` | opt/netconfig/netconfig/db.py:1016-1066 | a concrete script with an open quote, whose one statement grows by a separator each time |
| `SqlScript.KindsPartition` | opt/netconfig/netconfig/db.py:1069-1084 | the base half and the index half together hold every statement exactly as often as the script: none lost, doubled or changed |
| `SqlScript.KindKeepsOrder` | opt/netconfig/netconfig/db.py:1069-1084 | each half holds its statements in the order of the script |
| `SqlScript.IndexStatements` | opt/netconfig/netconfig/db.py:1077-1079 | which statements are of the index half: `CREATE INDEX` in any case and behind white space, not a unique index, a table, or a beginning of the words |
| `SqlScript.SchemaStatements` | opt/netconfig/netconfig/db.py:1069-1084 | the loop that fills the two lists returns the half asked for, or all statements with the base half first |
| `SqlScript.StartupRunsTheSchema` | opt/netconfig/netconfig/db.py:1293-1299 | the two scripts executed at start-up run exactly the statements of the schema, base ones first, each half in script order |
| `ConfigParser.CleanLines` | opt/netconfig/netconfig/configmodel.py:26-37 | the loop keeps the lines that are neither blank nor comments, stripped on the right |
| `ConfigParser.CleanedTwice` | opt/netconfig/netconfig/configmodel.py:26-37 | cleaning is a normal form: cleaned lines pass unchanged |
| `ConfigParser.DroppedLines` | opt/netconfig/netconfig/configmodel.py:13-16 | cleaning at concrete lines: comments, both spellings of `end` and the five banners are dropped; `!comment`, `end-policy`, `version` and `hostname r1` are kept |
| `ConfigParser.BuildTree` | opt/netconfig/netconfig/configmodel.py:40-51 | the stack loop over heap nodes gives every line the node whose parent is the nearest earlier line of smaller indent, children in order |
| `ConfigParser.PopTo` | opt/netconfig/netconfig/configmodel.py:43-48 | popping leaves exactly the modes that enclose the line, indents strictly increasing |
| `ConfigParser.ChainIncreases` | opt/netconfig/netconfig/configmodel.py:43-48 | the stack before every line has strictly increasing indents |
| `ConfigParser.ParentIs` | opt/netconfig/netconfig/configmodel.py:45-50 | the parent is the only line that is earlier, less indented, and has no less indented line in between |
| `ConfigParser.ParseIndented` | opt/netconfig/netconfig/configmodel.py:40-51 | cleaning and building together: the tree of the cleaned text, which read off the heap is its nesting by indentation |
| `ConfigParser.Walk` | opt/netconfig/netconfig/configmodel.py:54-62 | the recursive walk over `children` collects exactly the paths below a node |
| `ConfigParser.Paths` | opt/netconfig/netconfig/configmodel.py:54-62 | the paths of a parsed tree are the path set of its lines |
| `ConfigParser.PathSetClosed` | opt/netconfig/netconfig/configmodel.py:54-62 | the path set of any text contains every prefix of its paths |
| `ConfigParser.ParsedTreeIsForest` | opt/netconfig/netconfig/configmodel.py:40-51 | the parser's tree is the nesting of the lines by indentation, read independently of the stack |
| `ConfigParser.HeapIsForest` | opt/netconfig/netconfig/configmodel.py:40-51 | the heap tree, followed from its root through `children`, is that nesting |
| `ConfigParser.PrintOfForest` | opt/netconfig/netconfig/configmodel.py:40-51 | the preorder of the parsed tree is the cleaned input |
| `ConfigParser.ForestIsNested` | opt/netconfig/netconfig/configmodel.py:40-51 | every parsed tree is nested: children deeper than their parent, siblings not deeper than the first |
| `ConfigParser.RoundTripIffNested` | opt/netconfig/netconfig/configmodel.py:40-51 | printing a tree with its indents and parsing again returns the tree if and only if it is nested |
| `ConfigParser.TextRoundTripIff` | opt/netconfig/netconfig/configmodel.py:26-51 | a tree written out as raw text and parsed again comes back if and only if it is nested and each of its lines is stripped and none of those that cleaning drops |
| `ConfigPlanner.EmitTransition` | opt/netconfig/netconfig/configmodel.py:65-73 | the loop finds the common prefix: exits out of what is not shared, then the missing modes |
| `ConfigPlanner.TransitionReaches` | opt/netconfig/netconfig/configmodel.py:65-73 | a transition ends in its target, creates only the target's missing modes, and is sound at every command |
| `ConfigPlanner.Sorted` | opt/netconfig/netconfig/configmodel.py:79-80 | sorting by length, then text, in either direction lists every path once, in order |
| `ConfigPlanner.SortedMeans` | opt/netconfig/netconfig/configmodel.py:79-80 | what that order is: additions from short to long, removals from long to short, paths of one length decided by their first different component |
| `ConfigPlanner.TextOrderIs` | opt/netconfig/netconfig/configmodel.py:79-80 | texts are compared by their first different character, a beginning before the whole |
| `ConfigPlanner.PathOrderIs` | opt/netconfig/netconfig/configmodel.py:79-80 | paths by their first different component, in the same way |
| `ConfigPlanner.PlanRemovals` | opt/netconfig/netconfig/configmodel.py:85-94 | the removal loop, which skips paths below another removal, leaves exactly the shared paths |
| `ConfigPlanner.PlanAdditions` | opt/netconfig/netconfig/configmodel.py:95-102 | the addition loop, which sends only leaves, ends with exactly the desired paths |
| `ConfigPlanner.Plan` | opt/netconfig/netconfig/configmodel.py:76-103 | on a strict device every command is accepted, no path of both configurations is ever missing, the context always exists, and the run ends with exactly the desired paths at top level |
| `ConfigPlanner.PlanIndented` | opt/netconfig/netconfig/configmodel.py:76-103 | the same from two texts; and the strings sent, executed as text by a device, lead to the baseline with nothing shared lost if and only if the way can be put into words: no component of an addition, nor of a wanted mode around a removal, equals the exit command or begins with the negation word |
| `ConfigPlanner.SpokenReaches` | opt/netconfig/netconfig/configmodel.py:65-103 | when it can, each string of the plan is read as it was meant in the mode where it is sent |
| `ConfigPlanner.NoWordsForIt` | opt/netconfig/netconfig/configmodel.py:76-103 | when it cannot, no lines at all lead to the baseline, whatever modes the device knows |
| `ConfigPlanner.ReadAsMeantIffPlain` | opt/netconfig/netconfig/configmodel.py:94-101 | one command as text is read as it was meant if and only if the line it adds or enters looks like none of the other commands |
| `ConfigPlanner.NegatedLineIsLost` | opt/netconfig/netconfig/configmodel.py:76-103 | the planner run on two interfaces, wanted with `no shutdown` and found with `shutdown`: its strings do not lead to the baseline |
| `ConfigPlanner.NegatedLineIsAmbiguous` | opt/netconfig/netconfig/configmodel.py:94-101 | because that addition is sent as the same text as a removal |
| `TaskQueue.TaskTable.EnqueueTask` | opt/netconfig/netconfig/db.py:2066-2080 | the new table is the old one after that call; the row returned is the new row |
| `TaskQueue.TaskTable.ClaimTask` | opt/netconfig/netconfig/db.py:2082-2103 | the first claimable row in id order goes to the worker under a new generation and token; no row is returned exactly when none is claimable |
| `TaskQueue.TaskTable.RenewTask` | opt/netconfig/netconfig/db.py:2105-2115 | the lease is extended only for the holder of worker, token and generation within its lease |
| `TaskQueue.TaskTable.FinishTask` | opt/netconfig/netconfig/db.py:2117-2132 | a result is written only for the holder within its lease; the answer says whether it was |
| `TaskQueue.TaskTable.SelectExpired` | opt/netconfig/netconfig/db.py:2134-2149 | the expired claims in id order, at most the limit |
| `TaskQueue.TaskTable.RecoverExpired` | opt/netconfig/netconfig/db.py:2134-2149 | every selected claim goes to quarantine, whatever its safety flag, and its lease is cleared |
| `TaskQueue.TaskTable.RequeueTask` | opt/netconfig/netconfig/db.py:2150-2166 | only a quarantined replay-safe row returns to the queue |
| `TaskQueue.NextTells` | opt/netconfig/netconfig/db.py:2066-2166 | every call moves each task one step of the queue protocol, and the row says where its log has led |
| `TaskQueue.RunTells` | opt/netconfig/netconfig/db.py:2066-2166 | so it is after any interleaving of calls, with any workers and any clocks |
| `TaskQueue.FinishIsLast` | opt/netconfig/netconfig/db.py:2117-2132 | nothing follows a result in its log: a task finishes at most once |
| `TaskQueue.FinishIsFenced` | opt/netconfig/netconfig/db.py:2117-2132 | a result comes from worker, token and generation of the latest claim, within its lease, and that claim was not recovered before |
| `TaskQueue.HeldSinceClaim` | opt/netconfig/netconfig/db.py:2082-2115 | a held task has had only renewals since the claim that gave it that generation |
| `TaskQueue.RecoveredNeverFinishes` | opt/netconfig/netconfig/db.py:2117-2166 | a recovered claim never delivers a result, even when the same worker holds it again |
| `TaskQueue.ClaimsAreCounted` | opt/netconfig/netconfig/db.py:2082-2103 | attempts and generation both count the claims, claims are at most requeues plus one, and a task that is not replay-safe is claimed at most once ever |
| `TaskQueue.GenerationsRise` | opt/netconfig/netconfig/db.py:2090-2100 | the claims of a task carry the generations 1, 2, 3 and so on in this order |
| `TaskQueue.ClaimsAreNumbered` | opt/netconfig/netconfig/db.py:2090-2100 | a claim carries the number it has among the claims of its task |
| `TaskQueue.EveryRunIsFenced` | opt/netconfig/netconfig/db.py:2066-2166 | for every task after every interleaving: attempts and generation equal the claims, which are bounded by requeues and numbered 1, 2, 3 in order; a held row is held since the claim of its worker, token and generation; a result is the last event, from worker, token and generation of the latest claim with only renewals since, within the lease, and after no recovery of that claim |
| `TaskCalls.EnqueueEffects` | opt/netconfig/netconfig/db.py:2066-2080 | a new waiting task under an unused number, with the defaults for queue, payload and time; no other row changes |
| `TaskCalls.ClaimEffects` | opt/netconfig/netconfig/db.py:2082-2103 | the first due task of the queue goes to the worker, one generation and one attempt further, for the seconds asked for and at least five; nothing changes when none is due, and no other row ever |
| `TaskCalls.RenewEffects` | opt/netconfig/netconfig/db.py:2105-2115 | only the lease of a task held by this worker, token and generation moves; anybody else changes nothing |
| `TaskCalls.FinishEffects` | opt/netconfig/netconfig/db.py:2117-2132 | the same for the result |
| `TaskCalls.RequeueEffects` | opt/netconfig/netconfig/db.py:2150-2166 | a quarantined replay-safe task waits again, its claim wiped, its counts kept; any other stays |
| `TaskCalls.ExpiredIdsComplete` | opt/netconfig/netconfig/db.py:2134-2141 | no claim that ran out is passed over, unless the limit is reached by earlier ones |
| `TaskCalls.RecoverEffects` | opt/netconfig/netconfig/db.py:2134-2149 | exactly the first claims that ran out, as many as the limit between 1 and 5000 allows, are quarantined; nothing else changes |
| `Saga.Network.ExecuteResource` | opt/netconfig/netconfig/structured_changes.py:222-313 | idempotency key, then the read before the write: an earlier success under the key is returned, one in progress is refused; a resource that cannot be read, like one that is not there, ends the call FAILED with nothing written; otherwise the write and its ledger row are as specified |
| `Saga.Network.Rollback` | opt/netconfig/netconfig/structured_changes.py:415-448 | refuses unless the change succeeded, had a previous value and is still live; otherwise writes the previous value under its own key |
| `Saga.Network.RollbackAll` | opt/netconfig/netconfig/desired_state.py:236-264 | reversed compensation tries every change and reports whether all of them worked |
| `Saga.Network.ApplyDevice` | opt/netconfig/netconfig/desired_state.py:202-268 | the loop over one device's operations stops at the first failure and compensates the device's own changes |
| `SagaCalls.RepeatEffects` | opt/netconfig/netconfig/structured_changes.py:123-157 | a repeated call returns the success of the newest transaction under its key, or is stopped by one in progress, and changes nothing |
| `SagaCalls.ExecuteEffects` | opt/netconfig/netconfig/structured_changes.py:222-313 | any other call writes one row: the value found, whether it worked (there was a value to read, and it was the wanted one or the network took it), whether it changed anything; a failed one leaves the resource alone unless the network garbles it |
| `SagaCalls.UndoEffects` | opt/netconfig/netconfig/structured_changes.py:415-448 | a rollback done before is accepted and one of a stale, unsuccessful or empty change refused, both changing nothing; any other writes the value found before under its own key and notes it |
| `Saga.UndoNewest` | opt/netconfig/netconfig/structured_changes.py:415-448 | undoing the newest change of a chain succeeds if and only if the network takes the write, and then the configuration before that change is back |
| `Saga.UndoAllRestores` | opt/netconfig/netconfig/desired_state.py:236-264 | compensation that succeeds throughout restores the configuration before the chain |
| `Saga.UndoAllIffTaken` | opt/netconfig/netconfig/desired_state.py:236-264 | compensation of a chain succeeds if and only if the network takes its writes, one for each change |
| `Saga.ApplyRestores` | opt/netconfig/netconfig/desired_state.py:202-268 | a run that succeeds leaves exactly the wanted configuration; a failed one whose compensations all succeed, and none of whose own writes garbles a resource, leaves the device as it was |
| `Saga.RunIsRestored` | opt/netconfig/netconfig/desired_state.py:202-268 | from the operations, the configuration and the fates of the writes alone: a run stops at the first operation that fails, and unless that one garbled its resource, compensation works if and only if the network takes one write for each change made, and then the device is as it was |
| `Saga.OneRefusalIsRestored` | opt/netconfig/netconfig/desired_state.py:202-268 | with a single refused write: a run stopped by it is always compensated and its device as it was; a run stopped by a missing resource is, if and only if the refusal meets none of the compensating writes |
| `SagaInputs.MissingMeetsRefusal` | opt/netconfig/netconfig/desired_state.py:234-268 | a concrete run of two operations where it does meet one: the second resource is missing, the rollback of the first is refused, and the device stays half changed |
| `Saga.ForwardOrderFails` | opt/netconfig/netconfig/desired_state.py:236-240 | undone in order of execution two changes of one resource are never restored, so the reversal is needed |
| `Saga.StaleSourceWritesNothing` | opt/netconfig/netconfig/structured_changes.py:127-157 | a second run under a finished run's source reports success and writes nothing |
| `Saga.ReachedIsKnown` | opt/netconfig/netconfig/desired_state.py:202-232 | what a stopped run has done is known to the ledger under the run's source |
| `Saga.ReentryIsIdempotent` | opt/netconfig/netconfig/desired_state.py:175-268 | as long as no operation has failed: a run stopped after any number of operations and started again under the same source ends exactly like an uninterrupted one |
| `SagaReentry.EndOfFailedRun` | opt/netconfig/netconfig/desired_state.py:234-268 | dying after the last compensation is the end of the failed run, so that case is among the crash points |
| `SagaReentry.CrashedLeaves` | opt/netconfig/netconfig/desired_state.py:236-264 | wherever compensation is interrupted, the ledger still has every operation before the failed one as done and the failed one as open |
| `SagaInputs.UndoneOperationIsLost` | opt/netconfig/netconfig/structured_changes.py:123-138 | a concrete run of two operations, failed and fully compensated, that started again under its source reports success without the first operation |
| `SagaReentry.ReentryIsRightIffIntact` | opt/netconfig/netconfig/campaigns.py:296-308 | a run that died anywhere in or after its compensation, started again and successful, leaves the wanted configuration if and only if what every operation passed over wants, unless a later one follows on its resource, is on the device at the restart |
| `SagaReentry.ReentryIsRightIffLedgerSaysSo` | opt/netconfig/netconfig/structured_changes.py:123-138 | and if no rollback was garbled, if and only if in the ledger the newest success on that resource, rollbacks included, wrote that value: readable before the restart |
| `SagaReentry.ReentryAfterFullCompensation` | opt/netconfig/netconfig/structured_changes.py:415-448 | after a compensation that went through, if and only if the operations passed over want what the device had before the first start |
| `SagaRefailure.TwoGoesRestore` | opt/netconfig/netconfig/structured_changes.py:415-448 | a chain undone in two goes that share its changes, the second from where the first left off, is undone altogether, whatever order of success that made |
| `SagaRefailure.FailedAgainRestores` | opt/netconfig/netconfig/campaigns.py:296-308 | a run that died anywhere in or after its compensation, started again and failing again with every compensation of the second run successful, leaves the device as it was before the first start |
| `SagaInputs.RolledBackYetRight` | opt/netconfig/netconfig/structured_changes.py:415-448 | a concrete run where the last operation on a resource was rolled back and starting again is right all the same, so rollbacks have to be compared by value |
| `CampaignService.CampaignRows.StartCampaign` | opt/netconfig/netconfig/campaigns.py:167-180 | the rows become what the call specifies; the answer says whether the state allowed it |
| `CampaignService.CampaignRows.PauseCampaign` | opt/netconfig/netconfig/campaigns.py:182-191 | the same for pausing |
| `CampaignService.CampaignRows.ResumeCampaign` | opt/netconfig/netconfig/campaigns.py:193-213 | the same for resuming, refused while any target is failed or rolled back |
| `CampaignService.CampaignRows.RetryFailed` | opt/netconfig/netconfig/campaigns.py:215-276 | the loop resets failed and rolled-back targets; refused when a compensation failed or nothing is to be retried |
| `CampaignService.CampaignRows.AbortCampaign` | opt/netconfig/netconfig/campaigns.py:278-294 | the loop skips what has not run, other rows keep their state, and the campaign is aborted for good (`CampaignControls.AbortIsFinal` says what that means) |
| `CampaignService.CampaignRows.RecoverInterruptedTargets` | opt/netconfig/netconfig/campaigns.py:296-308 | every running row goes back to pending with its attempt uncounted |
| `CampaignService.CampaignRows.RunAll` | opt/netconfig/netconfig/campaigns.py:378-429 | the loop over the wave's targets: each under a new attempt, its outcome written, failures counted |
| `CampaignService.CampaignRows.RollbackTargets` | opt/netconfig/netconfig/campaigns.py:310-351 | the loop over the reversed targets compensates each succeeded one and records the outcome |
| `CampaignService.CampaignRows.ExecuteWave` | opt/netconfig/netconfig/campaigns.py:353-453 | one complete call: recovery, choice of the lowest wave with work, the run, the threshold, the compensation, the campaign's new state |
| `Campaigns.RunFromEffects` | opt/netconfig/netconfig/campaigns.py:378-429 | running some targets: each ends in success or failure under one more attempt, the others are untouched, the log gains exactly the failures counted |
| `Campaigns.WaveCounts` | opt/netconfig/netconfig/campaigns.py:430-437 | the failures the loop counts are the failed targets of the wave |
| `Campaigns.NextKeepsSettled` | opt/netconfig/netconfig/campaigns.py:167-453 | every complete call keeps the invariant of quarantine, tolerance and counting |
| `Campaigns.RunKeepsSettled` | opt/netconfig/netconfig/campaigns.py:167-453 | so does every sequence of complete calls |
| `Campaigns.FailedRollbackStopsForEver` | opt/netconfig/netconfig/campaigns.py:193-276 | once a compensation has failed no sequence of calls makes the campaign run again: it is paused or aborted for ever |
| `Campaigns.RunningIsTolerable` | opt/netconfig/netconfig/campaigns.py:353-453 | after any calls a running or finished campaign has no target rolled back or stuck in rollback, at most `max_failures` failed targets in any wave, and a failure count equal to the failed outcomes recorded |
| `Campaigns.NextKeepsCounted` | opt/netconfig/netconfig/campaigns.py:215-276 | every call keeps the ledger below the attempt numbers, a retry included |
| `Campaigns.NextAttemptIsFresh` | opt/netconfig/netconfig/campaigns.py:378-396 | the next run of a target comes under a source the ledger has never seen |
| `Campaigns.WaveStacks` | opt/netconfig/netconfig/campaigns.py:378-429 | after any part of a wave the configuration is the one before it plus the changes of the targets that succeeded |
| `Campaigns.RollbackUnstacks` | opt/netconfig/netconfig/campaigns.py:310-351 | compensating the wave, last target first, removes exactly that stack |
| `Campaigns.FailedWaveIsUndone` | opt/netconfig/netconfig/campaigns.py:430-436 | an over-threshold wave with rollback leaves the configuration of all its devices as it was before the call, whenever every compensation called for succeeded and no run that failed garbled a resource |
| `CampaignWaves.NextKeepsFew` | opt/netconfig/netconfig/campaigns.py:167-453 | every complete call keeps it so that with rollback on a wave with a success has no more undecided targets than failures are tolerated |
| `CampaignWaves.RunKeepsCountedAndFew` | opt/netconfig/netconfig/campaigns.py:167-453 | so does every sequence of complete calls, which also keeps the invariant and the attempts counted |
| `CampaignWaves.NoneSucceededAfter` | opt/netconfig/netconfig/campaigns.py:430-436 | an over-threshold call, complete calls before it, finds no success in its wave and leaves none |
| `CampaignWaves.FailedWaveOfRunIsUndone` | opt/netconfig/netconfig/campaigns.py:310-453 | for every fleet that any calls lead to from a new campaign: an over-threshold wave whose compensations succeed leaves the configuration as it was and no target of the wave SUCCEEDED |
| `CampaignWaves.FailedWaveLeaves` | opt/netconfig/netconfig/campaigns.py:378-436 | in any state, one after a death inside a wave included, an over-threshold call leaves a target of its wave SUCCEEDED if and only if it was so before the call |
| `CampaignWaves.DeathLeavesSuccess` | opt/netconfig/netconfig/campaigns.py:296-308 | two targets in a wave that tolerates no failure: the first succeeds, the process dies with the second in hand, the second fails in the next call, and the first is not compensated |
| `CampaignSchedule.WaveFor` | opt/netconfig/netconfig/campaigns.py:102-108 | the index lies in the stretch of the wave it is given |
| `CampaignSchedule.Create` | opt/netconfig/netconfig/campaigns.py:102-113 | the loop writes one pending target per device with the wave of its index |
| `CampaignSchedule.RefusedIff` | opt/netconfig/netconfig/campaigns.py:62-86 | exactly which requests are refused |
| `CampaignSchedule.CreatedRows` | opt/netconfig/netconfig/campaigns.py:87-113 | a new campaign is a draft that has run nothing, with one untried target for each device, in the wave whose stretch has its index |
| `CampaignSchedule.WaveIsStretch` | opt/netconfig/netconfig/campaigns.py:102-108 | a wave is exactly the stretch of indices between its start and the next one's |
| `CampaignSchedule.WaveSizes` | opt/netconfig/netconfig/campaigns.py:102-108 | wave 1 has exactly the canaries when there are any, every other wave at most the wave size |
| `CampaignSchedule.WavesHaveNoGap` | opt/netconfig/netconfig/campaigns.py:102-108 | wave numbers start at 1 and never skip one |
| `CampaignSchedule.WavesRise` | opt/netconfig/netconfig/campaigns.py:102-108 | wave numbers never decrease with the index |
| `CampaignSchedule.WaveIsMet` | opt/netconfig/netconfig/campaigns.py:102-108 | every wave up to the last target's has a target |
| `CampaignSchedule.CreatedIsSettled` | opt/netconfig/netconfig/campaigns.py:62-113 | a new campaign satisfies the invariant of complete calls |
| `CampaignSchedule.FrontierIsNext` | opt/netconfig/netconfig/campaigns.py:364-375 | the wave that runs next is the lowest with work, so no target starts while a lower wave has one pending |
| `CampaignSchedule.RoundAdvances` | opt/netconfig/netconfig/campaigns.py:364-451 | one call with no wave over its threshold finishes exactly the next wave |
| `CampaignSchedule.AsManyCallsAsWaves` | opt/netconfig/netconfig/campaigns.py:438-451 | with no wave over its threshold a campaign still runs before its last wave and has succeeded after exactly as many calls as it has waves, or after one when it has no targets |
| `CampaignSchedule.StartLeadsThere` | opt/netconfig/netconfig/campaigns.py:167-180 | starting a new campaign leads to that run |
| `CampaignAttempts.StepsCount` | opt/netconfig/netconfig/campaigns.py:296-308 | the attempt column means what it should after any steps, with the process dying between any two of them |
| `CampaignAttempts.StartsAreIdentified` | opt/netconfig/netconfig/campaigns.py:378-396 | a start repeats the previous number exactly when that start was interrupted, and is otherwise above all numbers used; no outcome was ever recorded under it |
| `CampaignAttempts.RetryIsFresh` | opt/netconfig/netconfig/campaigns.py:259-268 | after a retry the next start has a number above all used so far |
| `CampaignControls.AbortIsFinal` | opt/netconfig/netconfig/campaigns.py:278-294 | an accepted abort is for good: the campaign is ABORTED, its pending and running targets SKIPPED and no other target touched, nothing sent; and whatever calls follow, nothing changes any more |
| `CampaignControls.AbortRefused` | opt/netconfig/netconfig/campaigns.py:278-282 | only a finished campaign is not aborted |
| `CampaignControls.EndIsFinal` | opt/netconfig/netconfig/campaigns.py:167-453 | nothing changes a finished or aborted campaign |
| `CampaignControls.StartEffects` | opt/netconfig/netconfig/campaigns.py:167-180 | only a draft is started: it runs, counted from zero; no target changes and nothing is sent |
| `CampaignControls.PauseThenResume` | opt/netconfig/netconfig/campaigns.py:182-213 | pausing a running campaign and resuming it gives it back if and only if no target is failed or rolled back; otherwise it stays paused; no other campaign can be paused or resumed |
| `CampaignControls.PauseHolds` | opt/netconfig/netconfig/campaigns.py:182-213 | whatever calls other than resume follow, a paused campaign sends nothing and runs nothing |
| `CampaignControls.RetryEffects` | opt/netconfig/netconfig/campaigns.py:215-276 | a retry puts exactly the failed and the cleanly rolled-back targets of its wave back to pending, attempts kept, transactions forgotten; nothing is sent |
| `CampaignControls.RetryRefused` | opt/netconfig/netconfig/campaigns.py:215-252 | refused when not paused, when no wave or more than one could be meant, or when a rollback failed in it; nothing changes then |
| `CampaignControls.ExecuteEffects` | opt/netconfig/netconfig/campaigns.py:364-451 | an approved call runs every pending target of the lowest wave with work once and no other; the campaign is paused exactly when more targets of the wave failed than are tolerated, with the successes of the call rolled back if so configured, and finished exactly when nothing is left; the failure count rises by the failed targets |
| `CampaignControls.ExecuteOtherwise` | opt/netconfig/netconfig/campaigns.py:353-375 | without approval, or when not running, nothing happens; with nothing left to run the campaign has succeeded |
| `CampaignControls.RecoverEffects` | opt/netconfig/netconfig/campaigns.py:296-308 | recovery puts back what a dead process left running, its attempt uncounted, and nothing else |
| `RpmHeader.FillStore` | tools/rpm-builder/rpm_builder.py:134-146 | the loop pads and appends every entry and records its offset |
| `RpmHeader.PackRecords` | tools/rpm-builder/rpm_builder.py:126-128 | records packed one behind the other; fails exactly when a number does not fit its field |
| `RpmHeader.HeaderBytes` | tools/rpm-builder/rpm_builder.py:130-155 | the header of the sorted tags, region record first and its trailer last; fails exactly when a number does not fit |
| `RpmHeader.ParseHeaderBytes` | tools/rpm-builder/verify_rpm.py:50-61 | the reading loop returns the records, the store and the end offset, or fails as specified |
| `RpmHeader.DecodeRecords` | tools/rpm-builder/verify_rpm.py:63-84 | the decoding loop: a later record of a tag replaces an earlier one, a broken one ends it all |
| `RpmHeader.LayoutAt` | tools/rpm-builder/rpm_builder.py:134-146 | every entry stands in the store at its offset, integer arrays aligned to their width |
| `RpmHeader.ValueRoundTrip` | tools/rpm-builder/verify_rpm.py:63-84 | a value's data anywhere in a store is decoded to the value if and only if its strings hold no NUL |
| `RpmHeader.HeaderRoundTrip` | tools/rpm-builder/verify_rpm.py:50-61 | parsing where a header was put finds its records and its store, and reports exactly where the header ends |
| `RpmHeader.DecodedIffNulFree` | tools/rpm-builder/verify_rpm.py:63-84 | the whole tag map comes back, with the region record beside it, if and only if no string holds a NUL |
| `RpmHeader.HeaderReadsBack` | tools/rpm-builder/verify_rpm.py:112-119 | writer and reader together: the tag map and the exact end offset |
| `RpmHeader.PackageRoundTrip` | tools/rpm-builder/rpm_builder.py:408-416 | in a whole package the verifier finds signature, main header and payload where the builder put them |
| `RpmVectors.EntryVectors` | tools/rpm-builder/rpm_builder.py:106-123 | the five kinds of values at concrete values: type number, count and bytes |
| `RpmVectors.HeaderVector` | tools/rpm-builder/rpm_builder.py:130-155 | a header of five tags, byte by byte: counts, region record, sixteen-byte records, aligned store, trailer |
| `Cpio.CpioNewc` | tools/rpm-builder/rpm_builder.py:175-212 | the writing loop, which pads the whole growing output, produces the records of all files and the closing one |
| `Cpio.ParseCpio` | tools/rpm-builder/verify_rpm.py:87-107 | the reading loop, followed for any number of turns, returns what the grammar of members gives, with signed fields, positions before the start, and an error for a name that is no UTF-8 |
| `Cpio.PlainIsRead` | tools/rpm-builder/verify_rpm.py:93 | a field of plain digits is read as their number, one with a minus as its opposite |
| `Cpio.RunsForEverIffReturns` | tools/rpm-builder/verify_rpm.py:87-107 | the reading loop runs for ever if and only if it comes back to a position, and if and only if it has not ended within twice the length of the input and one more turn |
| `Cpio.EndsWithoutNegativeSizes` | tools/rpm-builder/verify_rpm.py:94-102 | it ends when no readable member gives a negative size |
| `Cpio.LoopNeverEnds` | tools/rpm-builder/verify_rpm.py:94-102 | a concrete archive of one member of 112 bytes, with size `-0000070`, that it never finishes |
| `Cpio.HexField` | tools/rpm-builder/rpm_builder.py:206 | a number comes back from its hexadecimal field, and takes eight digits if and only if it has 32 bits |
| `Cpio.MemberRoundTrip` | tools/rpm-builder/verify_rpm.py:90-106 | a member at any multiple of four is read back, and the reader skips exactly the padding that was written |
| `Cpio.ArchiveRoundTrip` | tools/rpm-builder/verify_rpm.py:87-107 | for every file list that fits the fields the reader ends after one turn for each file and one more, and finds exactly the files before the first one with the reserved name, a later file of a path replacing an earlier one |
| `Cpio.FilesGoMissing` | tools/rpm-builder/verify_rpm.py:87-107 | two concrete archives: behind a directory of the reserved name a second one is not found, and of two directories with one path only the second is |
| `Cpio.CompleteIffDistinct` | tools/rpm-builder/verify_rpm.py:87-107 | one record for every file, with its mode and body, and no other, if and only if the paths differ and none is the reserved name |
| `CpioVectors.ArchiveVector` | tools/rpm-builder/rpm_builder.py:175-212 | the archive of a file and a directory, byte by byte |
| `CpioVectors.ModeVectors` | tools/rpm-builder/rpm_builder.py:181-188 | the file type is set once, whatever the mode says already |
| `CpioVectors.NameVectors` | tools/rpm-builder/verify_rpm.py:98 | which names decode, at the edges of RFC 3629: shortest forms only, no surrogates, nothing beyond the last code point, no missing or misplaced bytes |
| `CpioVectors.CharactersAre` | tools/rpm-builder/verify_rpm.py:93 | which bytes are white space and which are digits, of either case |
| `CpioVectors.SpaceAround` | tools/rpm-builder/verify_rpm.py:93 | white space around a field does not matter |
| `CpioVectors.Signs` | tools/rpm-builder/verify_rpm.py:93 | a plus changes nothing, a minus negates |
| `CpioVectors.PrefixGoes` | tools/rpm-builder/verify_rpm.py:93 | one prefix is dropped, with one underscore behind it |
| `CpioVectors.UnderscoresCount` | tools/rpm-builder/verify_rpm.py:93 | an underscore between digits is dropped; two together, or one at the end, spoil the number |
| `CpioVectors.NoDigits` | tools/rpm-builder/verify_rpm.py:93 | nothing, or an underscore in front, is no number |
| `AesField.MulLinear` | opt/netconfig/netconfig/aes.py:56-66 | products distribute over sums |
| `AesField.FieldLaws` | opt/netconfig/netconfig/aes.py:56-66 | the product is commutative and associative |
| `AesField.PowAdd` | opt/netconfig/netconfig/aes.py:29-35 | powers of 3 multiply by adding exponents |
| `AesField.NoEarlyReturn` | opt/netconfig/netconfig/aes.py:29-39 | 3 has order 255: the walk is not back at 1 before its 255th step |
| `AesField.WalkCovers` | opt/netconfig/netconfig/aes.py:29-39 | the walk meets every byte but 0 |
| `AesField.InverseIs` | opt/netconfig/netconfig/aes.py:29-35 | every byte but 0 has the inverse the walk keeps beside it |
| `AesField.InverseUnique` | opt/netconfig/netconfig/aes.py:29-35 | and only that one |
| `AesSbox.InitSbox` | opt/netconfig/netconfig/aes.py:24-44 | both table loops end and leave the substitution of the standard and its inverse |
| `AesSbox.FillSbox` | opt/netconfig/netconfig/aes.py:24-40 | the walk fills every entry with the affine image of the inverse |
| `AesSbox.InvertSbox` | opt/netconfig/netconfig/aes.py:41-44 | the second loop inverts the table |
| `AesSbox.SubByteInverse` | opt/netconfig/netconfig/aes.py:36-43 | the substitution is a permutation of the bytes and the two tables undo each other |
| `AesCipher.Multiply` | opt/netconfig/netconfig/aes.py:56-66 | the shift-and-add loop computes the product of the field |
| `AesCipher.KeyExpansion` | opt/netconfig/netconfig/aes.py:69-82 | for 16, 24 and 32 bytes every index is in range and the words are those of the recursive schedule, which `AesVectors` holds against the words that the standard prints |
| `AesCipher.RconIs` | opt/netconfig/netconfig/aes.py:48-49 | the fourteen constants are the powers of x |
| `AesCipher.AddRoundKey` | opt/netconfig/netconfig/aes.py:85-88 | the nested loops add the round key in place |
| `AesCipher.SubstituteBytes` | opt/netconfig/netconfig/aes.py:91-94 | the nested loops replace every byte by its table entry |
| `AesCipher.ShiftRowsLeft` | opt/netconfig/netconfig/aes.py:97-99 | row r moves r places to the left |
| `AesCipher.ShiftRowsRight` | opt/netconfig/netconfig/aes.py:102-104 | row r moves r places to the right |
| `AesCipher.MixAllColumns` | opt/netconfig/netconfig/aes.py:107-113 | every column is multiplied by the mixing polynomial, though the program only doubles and adds |
| `AesCipher.UnmixAllColumns` | opt/netconfig/netconfig/aes.py:116-122 | every column is multiplied by the inverse polynomial |
| `AesRounds.MixColumnsUndone` | opt/netconfig/netconfig/aes.py:107-122 | the two column steps undo each other, from the product of their polynomials |
| `AesRounds.ShiftRowsUndone` | opt/netconfig/netconfig/aes.py:97-104 | the two row steps undo each other |
| `AesRounds.BackMeetsForward` | opt/netconfig/netconfig/aes.py:154-165 | round by round the decryption passes through the states of the encryption |
| `AesRounds.CipherInverse` | opt/netconfig/netconfig/aes.py:139-165 | for every schedule and state decryption undoes encryption and encryption undoes decryption |
| `AesModes.NewAes` | opt/netconfig/netconfig/aes.py:133-137 | a key of another length is refused |
| `AesModes.Aes.Encipher` | opt/netconfig/netconfig/aes.py:139-152 | the round loop in place computes the cipher of the block; a block of another length is refused |
| `AesModes.Aes.Decipher` | opt/netconfig/netconfig/aes.py:154-165 | the inverse rounds from the last key down; missing bytes are refused |
| `AesModes.BlockRoundTrip` | opt/netconfig/netconfig/aes.py:139-165 | for every key of 16, 24 or 32 bytes and every block each operation undoes the other |
| `AesCfb.CfbRoundTrip` | opt/netconfig/netconfig/aes.py:172-196 | each CFB direction undoes the other for every block function, vector and message length |
| `AesCfb.CfbChunk` | opt/netconfig/netconfig/aes.py:177-182 | a chunk is its input added to the encryption of the ciphertext chunk before it, and depends on nothing else |
| `AesModes.RunCfb` | opt/netconfig/netconfig/aes.py:177-183 | the chunk loop with its feedback computes the mode |
| `AesModes.Cfb128` | opt/netconfig/netconfig/aes.py:172-196 | both functions with their error cases: key length, and vector length unless the message is empty |
| `AesModes.Cfb128RoundTrip` | opt/netconfig/netconfig/aes.py:172-196 | decryption returns every message |
| `AesVectors.Key1` | opt/netconfig/netconfig/aes.py:69-82 | words 4 to 7 of the 128-bit key in appendix A.1 of FIPS 197 |
| `AesVectors.Key10` | opt/netconfig/netconfig/aes.py:69-82 | its last words, 40 to 43, after all ten round constants |
| `AesVectors.Word24At6` | opt/netconfig/netconfig/aes.py:69-82 | the first computed word of the 192-bit key in appendix A.2 |
| `AesVectors.Word32At8` | opt/netconfig/netconfig/aes.py:69-82 | the first computed word of the 256-bit key in appendix A.3 |
| `AesVectors.Word32At12` | opt/netconfig/netconfig/aes.py:77-80 | its word 12, which comes from the extra substitution of long keys |
| `AesVectors.RoundsAre` | opt/netconfig/netconfig/aes.py:69-71 | 10, 12 and 14 rounds for these keys |
| `AesVectors.BlockVector` | opt/netconfig/netconfig/aes.py:139-152 | the cipher example in appendix B of FIPS 197, all ten rounds: that key and block give that ciphertext |
| `ChaCha.QuarterRound` | opt/netconfig/netconfig/aead.py:28-40 | the assignments in place are the quarter round on the four words, and nothing else changes; `ChaChaVectors.QuarterVector` holds it against the standard |
| `ChaCha.DoubleRound` | opt/netconfig/netconfig/aead.py:58-65 | the eight index lists are a round down the columns and a round down the diagonals |
| `ChaCha.ColumnsInPlace` | opt/netconfig/netconfig/aead.py:58-61 | the first four index lists are the columns |
| `ChaCha.DiagonalsInPlace` | opt/netconfig/netconfig/aead.py:62-65 | the last four are the columns after turning row r left r times |
| `ChaCha.ChaCha20Block` | opt/netconfig/netconfig/aead.py:46-67 | twenty rounds, the start added, sixteen little-endian words |
| `ChaCha.ChaCha20` | opt/netconfig/netconfig/aead.py:70-78 | the block loop adds byte i of the keystream to byte i of the data, for every length |
| `ChaCha.StreamTwice` | opt/netconfig/netconfig/aead.py:70-78 | the stream is its own inverse |
| `ChaCha.StreamByBlocks` | opt/netconfig/netconfig/aead.py:70-78 | the first 64 bytes are added to the block of the counter, and the rest is the stream from the next counter on |
| `ChaChaVectors.QuarterVector` | opt/netconfig/netconfig/aead.py:28-40 | the quarter round of section 2.1.1 of RFC 8439 |
| `ChaChaVectors.BlockVector` | opt/netconfig/netconfig/aead.py:46-67 | the block of section 2.3.2 of RFC 8439, all 64 bytes |
| `Poly1305.Poly1305Mac` | opt/netconfig/netconfig/aead.py:84-96 | the loop with a remainder at every step computes the tag of the standard: the exact polynomial, one remainder modulo 2^130 - 5, the second half of the key added modulo 2^128 |
| `Poly1305.HornerStep` | opt/netconfig/netconfig/aead.py:93-94 | one turn of the loop against the exact polynomial |
| `Poly1305.ClampIsStandard` | opt/netconfig/netconfig/aead.py:85-86 | the mask clears exactly the bits the standard names |
| `Poly1305.LERoundTrip` | opt/netconfig/netconfig/aead.py:87-96 | little-endian numbers come back from their bytes |
| `Aead.MacDataInjective` | opt/netconfig/netconfig/aead.py:113-114 | no two pairs of associated data and ciphertext below 2^64 bytes are authenticated by the same bytes |
| `Aead.Encrypt` | opt/netconfig/netconfig/aead.py:105-116 | the ciphertext and its tag, or failure in exactly the error cases |
| `Aead.Decrypt` | opt/netconfig/netconfig/aead.py:119-135 | the plaintext when the tag agrees, or failure in exactly the error cases |
| `Aead.OpensIffSealed` | opt/netconfig/netconfig/aead.py:105-135 | a box opens to a text if and only if sealing that text gives the box |
| `Aead.SealedOpens` | opt/netconfig/netconfig/aead.py:105-135 | whatever can be sealed opens to the same text, sixteen bytes shorter |
| `Aead.OneTagOpens` | opt/netconfig/netconfig/aead.py:127-134 | for a ciphertext and its associated data exactly one tag is accepted |
| `AeadVectors.TagVector` | opt/netconfig/netconfig/aead.py:84-96 | the tag of section 2.5.2 of RFC 8439 |
| `AeadVectors.BoxVector` | opt/netconfig/netconfig/aead.py:105-116 | the tag of the sealed message in section 2.8.2 of RFC 8439: one-time key, padding, lengths and their order |
| `AeadVectors.FirstWordVector` | opt/netconfig/netconfig/aead.py:108-112 | the first bytes of that ciphertext, so that encryption begins at counter 1 |
| `DependencyGraph.TraversableIff` | opt/netconfig/netconfig/dependencies.py:316-328 | the traversal policy over both functions: configured always, inferred on request, observed only while fresh or when stale evidence is asked for, unknown never |
| `DependencyGraph.ReasonIff` | opt/netconfig/netconfig/dependencies.py:316-328 | when exactly each reason for not following an edge is given |
| `DependencyGraph.VisitKeeps` | opt/netconfig/netconfig/dependencies.py:359-388 | one edge, unless the node limit stops it, keeps distances, spanning tree, marks and cycle count, and its target is a node when the edge is usable |
| `DependencyGraph.Expand` | opt/netconfig/netconfig/dependencies.py:356-388 | all edges of one node keep every property of the search, up to a cut |
| `DependencyGraph.Graph` | opt/netconfig/netconfig/dependencies.py:330-389 | every depth is the shortest distance; not cut off, the nodes are exactly the existing entities within the depth limit, all their active edges are reported once, level by level and in the order of the query, and the followed edges are a spanning tree; an edge is called a cycle if and only if its target is its source or lies on the way of followed edges from the root to its source; with all targets existing nothing is cut off if and only if no more keys than the node limit are in reach and no more than 1000 active edges leave those above the depth limit; cut off by the node limit, only the last edge, which could have been followed, is marked wrongly; the error cases |
| `DependencyExamples.RefusedEdgeIsMarked` | opt/netconfig/netconfig/dependencies.py:379-380 | the search on three services with room for two: its last edge is marked as followed and its target is no node |
| `DependencyExamples.RingIsReported` | opt/netconfig/netconfig/dependencies.py:366-375 | two services that depend on each other: the one answer of the search, with the edge back reported as a cycle and counted |
| `DependencyGraph.LeadsNext` | opt/netconfig/netconfig/dependencies.py:386-388 | a followed edge leaves every known way as it is, and its target is reached through its source alone |
| `DependencyGraph.PathInBall` | opt/netconfig/netconfig/dependencies.py:345-388 | bounded reachability contains the end of every short enough path of usable edges |
| `DependencyGraph.BallHasPath` | opt/netconfig/netconfig/dependencies.py:345-388 | and nothing else |
| `DependencyGraph.QueryWhole` | opt/netconfig/netconfig/dependencies.py:356-359 | the query limit of 2000 never hides an edge, because the search stops at 1000 reported ones |
| `Relatedness.BuildAdjacency` | opt/netconfig/netconfig/correlation.py:204-214 | the loop makes two keys neighbours exactly when an active trusted edge joins them in either direction, so the adjacency is symmetric |
| `Relatedness.TrustedIff` | opt/netconfig/netconfig/correlation.py:206-209 | a trusted edge is active, and configured, or discovered and not older than its age allows |
| `Relatedness.RelatedIff` | opt/netconfig/netconfig/correlation.py:226-251 | the relation in one line: a shared alias, or a way of at most four edges between services that their aliases name |
| `Relatedness.FindPath` | opt/netconfig/netconfig/correlation.py:239-251 | a path found has at most 4 edges; a way of d edges is never missed when at most 250 keys lie within d edges of the left keys; nothing is found when more than 250 keys lie within a distance that does not reach the right keys |
| `Relatedness.AreRelated` | opt/netconfig/netconfig/correlation.py:226-251 | never relates two facts without a shared alias, a shared service or a short path; decides the relation when at most 250 keys lie within four edges of the left fact; sees or misses a way of d edges under the two conditions of the search |
| `Relatedness.RelatedIsSymmetric` | opt/netconfig/netconfig/correlation.py:226-251 | on a symmetric adjacency the relation does not depend on the order of the facts |
| `Relatedness.JoinedIffLayer` | opt/netconfig/netconfig/correlation.py:239-250 | two sets are joined by a short path if and only if the layers of the search meet the second |
| `Relatedness.OrderMattersBeyondBound` | opt/netconfig/netconfig/correlation.py:241 | a concrete symmetric graph with more than 250 keys on which the answer depends on the order of the two facts |
| `RunLedger.RunTable.BeginRun` | opt/netconfig/netconfig/correlation_hardening.py:198-221 | a new running row with the latest completed answer to the same question; refused while the incident is busy |
| `RunLedger.RunTable.CompleteRun` | opt/netconfig/netconfig/correlation_hardening.py:223-243 | completed, or non-deterministic when the answer differs; says whether the exception is raised |
| `RunLedger.RunTable.FailRun` | opt/netconfig/netconfig/correlation_hardening.py:245-252 | a running row fails, any other row stays |
| `RunLedger.RunTable.RecoverInterruptedRuns` | opt/netconfig/netconfig/correlation_hardening.py:69-77 | every running row becomes interrupted, no other row changes |
| `RunLedger.RunTable.PruneRuns` | opt/netconfig/netconfig/correlation_hardening.py:294-312 | deletes exactly the finished rows older than the retention and counts them; refuses other numbers of days |
| `RunLedger.LatestIs` | opt/netconfig/netconfig/correlation_hardening.py:201-206 | the previous run is the completed one of the same question with the latest end, then the highest id |
| `RunLedger.LedgerIsDeterministic` | opt/netconfig/netconfig/correlation_hardening.py:198-252 | in every reachable ledger completed runs of the same question have the same answer, whatever crashed, failed, was recovered or pruned |
| `RunLedger.ContradictionIsCaught` | opt/netconfig/netconfig/correlation_hardening.py:223-243 | a run is recorded as completed if and only if it agrees with the completed runs of its question |
| `RunLedger.VerdictStands` | opt/netconfig/netconfig/correlation_hardening.py:245-252 | a non-deterministic verdict is changed by no step until its row is pruned, the failure path included |
| `RunLedger.RecoverEndsRuns` | opt/netconfig/netconfig/correlation_hardening.py:69-77 | after a restart no run is running, the interrupted ones ended at that time, and all others are untouched |
| `RunLedger.PruneRemoves` | opt/netconfig/netconfig/correlation_hardening.py:294-312 | pruning removes exactly the runs that are not running and ended before the cutoff |
| `RunLedger.BeginAdds` | opt/netconfig/netconfig/correlation_hardening.py:198-221 | one row more, pointing to an earlier answer exactly when there is one; the others stay |
| `RunLedger.FirstAnswerCompletes` | opt/netconfig/netconfig/correlation_hardening.py:198-243 | the first answer to a question is completed and recorded with its time |
| `RunLedger.CompleteWrites` | opt/netconfig/netconfig/correlation_hardening.py:223-243 | a completion writes its own row only, and keeps the incident busy exactly when it contradicts |
| `RunLedger.FailEnds` | opt/netconfig/netconfig/correlation_hardening.py:245-252 | a failure ends its own running row only and frees the incident |
| `Hypotheses.SortFacts` | opt/netconfig/netconfig/correlation.py:176 | the facts in canonical order: by time, source type and reference |
| `Hypotheses.Evaluate` | opt/netconfig/netconfig/correlation.py:297-418 | the three rules in turn, with their early returns, give exactly the first 25 of everything the rules give |
| `Hypotheses.ChangeIsSuspectedIff` | opt/netconfig/netconfig/correlation.py:303-323 | a change gets a hypothesis if and only if a related degradation follows it within the window, and the earliest of them is named |
| `HypothesisRules.ChangeCites` | opt/netconfig/netconfig/correlation.py:314-352 | what a suspected change cites: the earliest degradation, up to two more of other classes, each the earliest of its class, and every healthy related fact within 900 seconds of it |
| `HypothesisRules.PathIsSuspectedIff` | opt/netconfig/netconfig/correlation.py:355-385 | path evidence gets a hypothesis if and only if another degradation lies within 900 seconds and is related; the earliest is named, and every healthy related fact within 900 seconds of the evidence is cited against it |
| `HypothesisRules.ClusterIsReportedIff` | opt/netconfig/netconfig/correlation.py:388-418 | a degradation begins a cluster if and only if a later related one of another class lies within 900 seconds; the cluster has the earliest of every such class and no class twice, and every healthy related fact within 900 seconds is cited against it |
| `HypothesisRules.SourcesAre` | opt/netconfig/netconfig/correlation.py:398-401 | the group a cluster is known by has the source of each of its facts, and no other |
| `HypothesisRules.ChangeIsRaisedIff` | opt/netconfig/netconfig/correlation.py:299-353 | the whole evaluation, before the cap: a fact is blamed by the first rule if and only if it is a change and a related degradation follows within 1800 seconds |
| `HypothesisRules.PathIsRaisedIff` | opt/netconfig/netconfig/correlation.py:355-385 | the same for the second rule |
| `HypothesisRules.ClusterIsRaised` | opt/netconfig/netconfig/correlation.py:388-418 | the same for the third, whose groups are reported once |
| `Hypotheses.EveryHypothesisIsJustified` | opt/netconfig/netconfig/correlation.py:303-418 | every fact cited for a hypothesis is its anchor or related to it, every fact against it healthy and related: nearness in time is never enough |
| `Hypotheses.EvaluationKeysDiffer` | opt/netconfig/netconfig/correlation.py:297-418 | at most 25 hypotheses, no two with the same key |
| `Hypotheses.OrderOfTimelineIsIrrelevant` | opt/netconfig/netconfig/correlation.py:176-178 | the same facts linked in any order give the same hypotheses |
| `Hypotheses.EvaluationIsStorable` | opt/netconfig/netconfig/correlation.py:503-528 | what the rules give meets what the upsert assumes, for an injective digest |
| `HypothesisStore.HypothesisTable.PersistAll` | opt/netconfig/netconfig/correlation.py:421-476 | the loop and the final sweep leave the rows as specified |
| `HypothesisStore.PersistIsExact` | opt/netconfig/netconfig/correlation.py:421-476 | the active rows of the incident under the current rules are exactly the computed list, payload for payload; all other rows are untouched and none is lost |
| `HypothesisStore.StampsTell` | opt/netconfig/netconfig/correlation.py:421-476 | a new row is created now, a row that differs was updated now, a retired row keeps its payload |
| `HypothesisStore.PersistTwice` | opt/netconfig/netconfig/correlation.py:448-453 | a second identical call changes nothing, not even a time stamp |

## Left out

- SQL, connections, transactions and locks: tables are maps and sequences. Calls of one campaign, and runs
  of one incident, are taken to be serialized; `abort` and `pause` take no campaign lock, so their
  interleaving with a wave in progress is not modelled.
- A process that dies inside one device operation: a transaction left in progress only counts as being in
  the way. Dying between operations, in and after a compensation (between two rollbacks, or between a
  rollback and the note of it), and between the steps of a target is modelled; a second death of the
  restarted run, after one during compensation, is not.
- Desired-state runs over several devices: the loop is modelled device by device, which is how a campaign
  calls it. Planning and approval checks before the first operation are one admission decision.
- Idempotency keys and source references are structured values, not the strings built from them.
- Text encodings other than the UTF-8 of archive names, gzip, JSON, SHA-1 and SHA-256: other names are byte
  strings, digests are taken to be injective.
- `clean_lines` on line separators other than those of the line list, and case folding outside ASCII.
- ConfigPlanner.Plan: the device executes tagged commands; `PlanIndented` states the same of the text. A
  device that is sent text takes a line for a mode when something is below it in one of the two
  configurations. `plan_junos_set` is two set differences and is not modelled.
- ConfigPlanner.PlanIndented: the condition is stated for dialects whose negation word is a stripped word
  that does not begin the exit command, as `no` and `undo` with `exit` are (drivers.py:67).
- Cpio.ParseCpio: the loop has no bound of its own; the method follows it for a given number of turns.
- SagaReentry.ReentryIsRightIffLedgerSaysSo: a rollback that failed and garbled its resource is excluded,
  since the ledger cannot show it; `ReentryIsRightIffIntact` covers it.
- Relatedness.FindPath: between the two bounds the answer depends on the order of the neighbours.
- Cpio.ArchiveRoundTrip: numbers of more than 32 bits, which would widen a field, and names that are no UTF-8,
  which the writer's `encode` does not give, are excluded.
- RPM lead, tags and dependencies, and the split of paths into directory and base names.
- Constant-time behaviour, key secrecy and random nonces of the ciphers. Lengths of 2^64 bytes and more are
  failures of `Aead.Encrypt`, as `struct.pack` would make them.
- DependencyGraph.Graph: entity and edge writes, the sorting and counting of the answer, and malformed keys.
- Hypotheses.Evaluate: summaries, scores and affected entities of a hypothesis; how facts are drawn from a
  timeline, whose evidence has one row for each source (db.py:543), and the cut at 500 facts.
- Floating point: times are integers or reals, and durations are not computed.
- Compliance, automation, tokens, recovery jobs, change planning, the command line and the web layers.
