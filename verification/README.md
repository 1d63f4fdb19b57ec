# Symmio upgrade, migration and deployment: a verified model

This project models, in Dafny 4.11, the code that upgrades and migrates the Symmio diamond, and proves what that code
is relied on for. Scripts that loop over mutable state are methods with loops, contracts are classes with their
storage as fields, and concurrent or crashing processes are state machines whose steps the environment chooses. Every
method is proved against a function or a relation, and the theorems are proved about those.

`dafny verify dfyconfig.toml` checks everything.

## What is proved

* **Diamond upgrade** (`Diamond`, `CutConditions`, `CutPlanner`, `UpgradeScripts`). The registry of LibDiamond, with
  its swap-and-pop array and its checked 16-bit counter, implements a plain selector table. The cut that the planner
  builds, in chunks of any size, goes through *exactly when* no selector keeps its facet, no function of the diamond
  itself has to go, every new facet has code and the target fits the array; it then ends in the one-line target of
  `buildExpectedState`, and after every chunk each selector is either untouched or final. Planning, cutting and
  verifying a live diamond succeed together. One cut of any kind goes through exactly when each of its distinct
  selectors could be edited alone in the table before it.
* **Timelock** (`Timelock`, `FileNames`, `BatchVerifier`, `CalldataSafety`). Whatever is scheduled, cancelled or
  executed in whatever order, for whatever target, the executed chunks are a prefix of the chain; while nothing else
  is proposed for the diamond, its table is that prefix applied; nothing executes before its delay is over. What the
  batch verifier accepts is the generated chain if and only if four things that it does not check are right: the
  network, the ether sent along, the delay, and without a positive chain id the salts. The generated files pass it
  because padded names sort in chunk order. The calldata checker is silent exactly on calls without an initializer
  that name every selector once and add or replace it at a facet that declares it; whatever the diamond was, after
  such calls every selector is served as before or by a facet that declares it.
* **Migration** (`MigrationContract`, `MigrationRun`, `MigrationSafety`, `MigrationResume`, `MigrationRetries`,
  `MigrationScript`, `MigrationInput`, `MigrationVerify`). Over every history of batches the contract's backfill
  applies each quote and each pair once if and only if no batch migrates a nonempty cross bucket into itself, which
  what the runner sends never does; a batch reverts if and only if an open quote is closed beyond its quantity or a
  user's distinct hedgers exceed the limit. The runner is a machine with crashes, lost files, failed saves and
  transactions that land late; the script's own loops refine it, and when some attempt of every operation gets
  through, they report success. When every start is safe, success reports mean a complete, exactly-once migration if
  and only if confirmations are waited for or nothing was left to do. A resume keeps all pending work ahead of the
  process if and only if it is safe: the saved chunk index is -1, or nothing is pending. After a completed run on
  prepared input the verifier is silent if and only if no listed quote is of one named kind, and after any run it
  finds every locked balance left out.
* **Bytecode** (`Bytecode`, `LinkedText`, `Immutables`). `linkAndCompare` decides "some choice of one address per
  library makes these equal", for all compiled texts, overlapping placeholders included; for any text with its
  placeholders filled in this means that no library needs two addresses. Masking and linking together decide equality
  up to immutables and library addresses if and only if no immutable lies at the very end of the code, where compilers
  put metadata.
* **Bridge ledger** (`BridgeContract`, `BridgeSafety`, `BridgeClaims`, `BridgeValue`). Over every run, interleaved
  with other facets, the lock is what is still open, every bridge was paid exactly its withdrawn transactions,
  withdrawn is final, a batch is its single withdrawals in any order, and value is conserved if and only if the token
  has at most 18 decimals. Each call goes through if and only if its stated conditions hold, and behind every payout
  stand its user's transfer and, at least the cooldown later, a claim by its own registered bridge.
* **Deployment** (`Checkpoint`, `DeployDiamond`). Checkpointed scripts under any crashes and restarts: a script
  finishes if and only if it is started once more often than something goes wrong; finishing means that everything was
  executed, and from a fresh checkpoint first executions keep the script's order, whatever the keys; with the exact
  conditions under which everything ends up recorded and nothing saved is done again. The first diamond cut at every
  crash point.
* **Smaller cores** (`Lanes`, `TestPool`, `Imports`, `Strings`, `MsgPack`, `Pagination`, `SigChecks`).

## Where the code does not do what it is for

Each of these is a lemma.

* `buildDiamondCut` emits a Replace for a selector whose facet is unchanged, which the diamond rejects: a second run
  of the same upgrade can never go through (`CutPlanner.SecondUpgradeReverts`).
* With the pre-check on, the saved chunk index counts chunks of a list that is filtered anew on every start: resuming
  from an index of 0 or more while something is pending skips the first pending quote or counterparty
  (`MigrationResume.UnsafeResumeSkipsQuote`, `MigrationResume.UnsafeResumeSkipsPair`); the exact conditions are
  `MigrationResume.QuotesAheadIff` and `MigrationResume.PairsAheadIff`, a run is
  `MigrationResume.PreCheckResumeCounterRun`.
* With zero confirmations a transaction that is never mined counts as done, and every migration can end in a success
  report without an effect (`MigrationResume.ZeroConfirmationsCounterRun`, `MigrationResume.ConfirmationsIff`).
* A listed quote that is open by its status but closed in full, or was never stored (a missing record reads as
  pending), is skipped by the contract and reported as not migrated by the verifier (`MigrationVerify.VerifyPrepared`,
  `MigrationVerify.PhantomCounterRun`).
* Migrating the zero address as a counterparty adds a hedger's cross bucket to itself, since the bucket is stored
  under the zero address (`MigrationContract.ZeroAddressDoubles`); the exact conditions are
  `MigrationContract.MigratePairsExactlyOnceIff` for one batch and `MigrationSafety.ReplayIff` for a history.
* The batch verifier does not check salts when the chain id is not positive
  (`BatchVerifier.SaltUncheckedWithoutChainId`), nor delays unless it is given the due one, which the scripts never do
  (`BatchVerifier.DelayUncheckedWithoutMinDelay`). Up to the ether sent along, its silence means the generated chain
  exactly when neither happens (`BatchVerifier.AcceptsOnlyTheChainIff`).
* It never looks at the ether that the outer transactions carry (`BatchVerifier.ValueAccepted`), nor compares the
  files' chain id with the network's (`BatchVerifier.OtherNetworkAccepted`). All that is left to check is
  `BatchVerifier.AcceptedIsChainIff`.
* Masking pads deployed code that is too short, so that truncated code can pass for an exact match
  (`Immutables.TruncatedCodePassesForExact`). This happens exactly when an immutable ends where the code ends; code
  with a trailer after its immutables never fails this way (`Immutables.DecidesEqualityIff`).
* The resume test of the first diamond cut asks for more than one facet, not for all of them: a crash between chunks
  leaves a diamond that is reported complete or can never be completed (`DeployDiamond.CoreDiamondResume`).
* A step and a batch of the checkpoint under the same key erase each other's record (`Checkpoint.SharedKeyForgets`):
  everything is recorded in the end, and order is kept from every checkpoint, exactly when no key is shared
  (`Checkpoint.RecordedIff`, `Checkpoint.RestartIff`, `Checkpoint.OrderIff`).
* An item that a batch lists twice is executed again after its completion was saved
  (`Checkpoint.ListedTwiceDoneTwice`); `Checkpoint.NeverRedoneIff` has the exact condition.
* Relative imports of a file outside any directory are looked up under its own name without the last letter
  (`Imports.SiblingOfRootFile`, `Imports.SiblingIff`).
* For a token of more than 18 decimals one unit can be bridged without being debited
  (`BridgeValue.DustIsBridgedForFree`, `BridgeValue.ConservedIff`).
* With a negative number of workers the test runner's loop goes round forever and starts nothing
  (`TestPool.SpinsIff`).

Comments and code disagree in three places; the model follows the code. The loupe speaks of 256 functions per facet
and allows 255. The tests describe the bridge lock as the sum of received transactions; suspended ones are in it, too.
The deployment script says its resume test covers a cut that succeeded without being saved; it does so only for all
chunks.

## Assumptions

* Addresses, selectors, quote ids and names are numbers compared for equality, so each stands for one canonical
  spelling.
* Hashes and the calldata encoding are injective (`Timelock.Word` and `Timelock.Calldata` are free constructors).
* The timelock is OpenZeppelin's TimelockController, which is not part of the repository: an operation executes when
  it is due and its predecessor is done, and a reverting call changes nothing. What is said of the diamond's table,
  but not of the order of execution, assumes that nothing but the generated operations is proposed for it, and that
  the timelock is the diamond's only owner. A call to the diamond other than a cut without initializer is taken to
  revert.
* A cross bucket is empty before the migration. The bridge's token does not call back while it is transferred.
* Other facets that share the bridge's lock keep it covered by the contract's collateral and release only their own
  part.
* The subgraph does not change while it is paged through. Chain reads and writes of one process do not fail halfway.
* Deployed code, as the node returns it, is lower-case hex, and compiled code is lower case. Immutable ranges lie
  inside the compiled code, over hex digits and outside placeholders, where compilers put them.

## Model

| member | source | states |
|---|---|---|
| Diamond.DiamondStorage.AddFunctions | contracts/diamond/libraries/LibDiamond.sol:118-132 | adds every selector or fails, exactly as the table semantics of Add, with the array and position map kept consistent |
| Diamond.DiamondStorage.ReplaceFunctions | contracts/diamond/libraries/LibDiamond.sol:135-150 | the table semantics of Replace, with its three rejections |
| Diamond.DiamondStorage.RemoveFunctions | contracts/diamond/libraries/LibDiamond.sol:153-175 | the table semantics of Remove, across swap-and-pop |
| Diamond.DiamondStorage.SwapAndPop | contracts/diamond/libraries/LibDiamond.sol:164-173 | moving the last selector into the gap removes exactly one selector and repairs the moved one's position |
| Diamond.DiamondStorage.DiamondCut | contracts/diamond/libraries/LibDiamond.sol:100-115 | a whole cut, or nothing when one of its parts is rejected |
| Diamond.DiamondStorage.Facets | contracts/diamond/facets/DiamondLoup/DiamondLoupeFacet.sol:16-65 | a grouping of the selectors by facet; it reverts exactly when some facet has more than 255 |
| CutConditions.CutGoesThroughIff | contracts/diamond/libraries/LibDiamond.sol:118-175 | one FacetCut of any kind goes through iff its selectors are distinct and at least one, its facet is right for the action, each selector meets the action's condition in the table before the cut, and additions fit; it then moves exactly those selectors |
| Diamond.LoupeReadsTable | scripts/upgrade/utils/verifyUpgrade.ts:19-29 | reading the loupe's listing into a map gives the selector table |
| CutPlanner.PlanOutcome | scripts/upgrade/utils/upgradeHelpers.ts:197-266 | a plan goes through iff the upgrade meets the stated condition, and then reaches the expected table |
| CutPlanner.ChunkedPlanOutcome | scripts/upgrade/utils/upgradeHelpers.ts:285-299 | the same for the plan in chunks of any size |
| CutPlanner.IntermediateState | scripts/upgrade/utils/upgradeHelpers.ts:285-299 | after any number of chunks each selector is untouched or final, and diamondCut is still there |
| CutPlanner.SecondUpgradeReverts | scripts/upgrade/utils/upgradeHelpers.ts:200-215 | a plan for an upgrade that is already done is rejected |
| UpgradeScripts.ReadSelectors | scripts/upgrade/utils/upgradeHelpers.ts:178-190 | the selector map of a facet listing, the last facet winning |
| UpgradeScripts.BuildDiamondCut | scripts/upgrade/utils/upgradeHelpers.ts:170-274 | the planner's cuts are a plan: each needed change once, additions last, one cut per facet and action |
| UpgradeScripts.ApplyDiamondCut | scripts/upgrade/utils/upgradeHelpers.ts:276-300 | applies a prefix of the chunks; it reports success iff all of them go through |
| UpgradeScripts.BuildExpectedState | scripts/upgrade/utils/verifyUpgrade.ts:35-46 | the expected table: the new facets' selectors, and diamondCut kept |
| UpgradeScripts.RunPostCutVerification | scripts/upgrade/utils/verifyUpgrade.ts:52-80 | no error iff the live table is the expected one |
| UpgradeScripts.Upgrade | scripts/upgrade/utils/upgradeHelpers.ts:170-300 | plan, cut and verify: a cut reverts iff the condition fails and then leaves what its first chunks made, what was applied never mismatches, success means the expected table, and every selector is where it was or where it should be |
| Timelock.StepKeepsOrder | scripts/upgrade/generateTimelockBatch.ts:127-172 | any timelock transaction, on any operation, keeps "the executed chunks are the first k" |
| Timelock.ChunksExecuteInOrder | scripts/upgrade/generateTimelockBatch.ts:127-172 | over every run, whatever is proposed, the executed chunks are a prefix of the chain |
| Timelock.StepKeepsPrefix | scripts/upgrade/generateTimelockBatch.ts:122-172 | an event that proposes nothing else for the diamond keeps "its table is the first k chunks applied", too |
| Timelock.NextToExecute | scripts/upgrade/generateTimelockBatch.ts:127-172 | only the chunk after the executed ones can execute |
| Timelock.ExecutedChunksArePrefix | scripts/upgrade/generateTimelockBatch.ts:122-172 | over every run that proposes nothing else for the diamond, its table is the executed prefix of the chain applied |
| Timelock.OtherProposalBreaksTable | scripts/upgrade/generateTimelockBatch.ts:122-172 | any other proposal that changes the diamond can execute and breaks that |
| Timelock.CompletedRunReachesPlan | scripts/upgrade/generateTimelockBatch.ts:122-172 | such a run, once it executed the last operation, has reached the planned table; diamondCut stays registered throughout |
| Timelock.WorkflowCompletes | scripts/upgrade/generateTimelockBatch.ts:181-186 | scheduling all chunks, waiting and executing them in order completes a feasible plan |
| Timelock.ExecutedAfterDelay | scripts/upgrade/generateTimelockBatch.ts:127-186 | over every run: what is done was proposed with at least the minimal delay, was not cancelled, waited that delay out and came after its predecessor |
| FileNames.ChunkNamesAscend | scripts/upgrade/generateTimelockBatch.ts:156-158 | zero-padded names ascend in string order as their numbers do |
| FileNames.MatchesIff | scripts/upgrade/utils/batchVerifier.ts:250-258 | the names collected and cleaned up are the plain one and the numbered ones, and no other file of the directory |
| FileNames.SortedListingIsChunkOrder | scripts/upgrade/utils/batchVerifier.ts:250-258 | sorting the collected names gives the chunk order |
| FileNames.UnpaddedOrderIff | scripts/upgrade/generateTimelockBatch.ts:120-158 | without padding the names are in chunk order iff there are fewer than ten |
| BatchVerifier.GenerateTimelockBatches | scripts/upgrade/generateTimelockBatch.ts:127-173 | one file per chunk with the chunk's calldata, salt and the previous operation as predecessor |
| BatchVerifier.VerifyTimelockBatches | scripts/upgrade/utils/batchVerifier.ts:551-656 | no issue iff every file passes, chain id, target, value, calldata, predecessor, salt and delay |
| BatchVerifier.AcceptedIffChain | scripts/upgrade/utils/batchVerifier.ts:587-652 | for a positive chain id, with or without a minimal delay, the accepted files are exactly those that make the generated calls, with the delay that was given, if any, whatever value they carry |
| BatchVerifier.AcceptsOnlyTheChainIff | scripts/upgrade/utils/batchVerifier.ts:587-652 | up to the outer transactions' value, silence means the generated chain exactly when the chain id is positive and, for schedule files, the due delay is given |
| BatchVerifier.SaltUncheckedWithoutChainId | scripts/upgrade/utils/batchVerifier.ts:603-648 | without a positive chain id a whole chain of foreign salts is accepted, of either kind |
| BatchVerifier.DelayUncheckedWithoutMinDelay | scripts/upgrade/utils/batchVerifier.ts:629-631 | without a minimal delay the chain with any other delay is accepted |
| BatchVerifier.ValueUnchecked | scripts/upgrade/utils/batchVerifier.ts:587-652 | files are accepted whatever value their transactions carry |
| BatchVerifier.ValueAccepted | scripts/upgrade/utils/batchVerifier.ts:587-652 | the generated files with any other value are accepted |
| BatchVerifier.OtherNetworkAccepted | scripts/upgrade/utils/batchVerifier.ts:577-592 | files generated for another chain id are accepted |
| BatchVerifier.AcceptedIsChainIff | scripts/upgrade/utils/batchVerifier.ts:577-652 | accepted files are the chain generated for a network and a delay iff their chain id, values and delays, and without a positive chain id their salts, are right |
| BatchVerifier.CleanOutput | scripts/upgrade/generateTimelockBatch.ts:112-116 | removes exactly the stale batch files of both kinds, and no other file |
| BatchVerifier.WriteBatches | scripts/upgrade/generateTimelockBatch.ts:118-173 | afterwards the directory has exactly the new files of both kinds |
| BatchVerifier.GeneratedBatchesVerify | scripts/upgrade/generateTimelockBatch.ts:112-173 | what is written and then collected verifies without issues, for both kinds and every chain id, iff no other minimal delay is demanded |
| BatchVerifier.VerifyDiamondCutCalldata | scripts/upgrade/utils/batchVerifier.ts:392-527 | no issue iff every chunk is a call with zero initializer and empty init data, with actions of at most 2, whose additions and replacements name a facet whose last listing holds the selector and whose removals name zero, no selector is named twice, and the deployed facets list exactly the selectors of the compiled ones if those are given |
| CalldataSafety.CleanCallIsCuts | scripts/upgrade/utils/batchVerifier.ts:425-470 | the diamond does with such a call what its decoded cuts say, and nothing else |
| CalldataSafety.AcceptedChunksServe | scripts/upgrade/utils/batchVerifier.ts:425-470 | end to end: whatever the diamond was, after all accepted chunks every selector is served as before or by a deployed facet that declares it |
| CalldataSafety.NamedOnceIff | scripts/upgrade/utils/batchVerifier.ts:440-452 | the checker's running set finds a repetition iff two places, in any chunks and cuts, name the same selector |
| BatchVerifier.PlannedCalldataPasses | scripts/upgrade/utils/upgradeHelpers.ts:624-640 | the planner's chunks pass the calldata checker iff address and name lookups agree |
| BatchVerifier.DistinctAddressesAgree | scripts/upgrade/utils/batchVerifier.ts:405-413 | facets at distinct addresses make the lookups agree |
| MigrationContract.MigrationFacet.MigrateBatch | contracts/core/facets/Migration/MigrationFacetImpl.sol:32-87 | the batch of the specification, or a revert that changes nothing; from an exactly-once state it reverts iff an open quote of the batch is closed beyond its quantity or a user would have more distinct hedgers than the limit |
| MigrationContract.BatchRevertsIff | contracts/core/facets/Migration/MigrationFacetImpl.sol:32-87 | from an exactly-once state a batch, in any order and with repetitions, reverts iff one of its unmigrated open quotes has a quantity below its closed amount or some user's connected hedgers would exceed the limit |
| MigrationContract.TreatmentIff | contracts/core/facets/Migration/MigrationFacetImpl.sol:36-66 | which quotes are skipped, reserve a fee, open a position or underflow, by status, parties and amounts |
| MigrationContract.MigrationFacet.MigrateCrossLocked | contracts/core/facets/Migration/MigrationFacetImpl.sol:125-144 | adds each pair that is not migrated yet to the hedger's cross bucket, which is its entry for the zero address |
| MigrationContract.MigrateQuotesExactlyOnce | contracts/core/facets/Migration/MigrationFacetImpl.sol:21-31 | from any exactly-once state a batch settles all its quotes, with amounts, fees and positions equal to the sums over the distinct migrated quotes, and each user connected to exactly the distinct hedgers of its migrated open quotes, in order, never beyond the limit |
| MigrationContract.MigratePairsExactlyOnceIff | contracts/core/facets/Migration/MigrationFacetImpl.sol:116-144 | a batch of pairs keeps every cross bucket the sum over the distinct migrated pairs iff it does not newly migrate the zero address onto a nonempty bucket |
| MigrationContract.MigratePairsExactlyOnce | contracts/core/facets/Migration/MigrationFacetImpl.sol:116-144 | a batch without the zero address always does |
| MigrationContract.ZeroAddressDoubles | contracts/core/facets/Migration/MigrationFacetImpl.sol:132-141 | a user and then the zero address: the bucket gets the user's values twice |
| MigrationSafety.ReplayIff | contracts/core/facets/Migration/MigrationFacetImpl.sol:21-144 | over every history of batches each quote and pair counts once iff no batch migrated a nonempty bucket into itself |
| MigrationSafety.RunExactlyOnce | scripts/upgrade/migrate.ts:462-481 | in every run of the runner each quote and pair counts once, since the deduplication drops the zero address |
| MigrationRun.DeduplicateAddresses | scripts/upgrade/migrate.ts:462-481 | the distinct non-zero addresses in order of first occurrence |
| MigrationRun.PendingQuotesMembers | scripts/upgrade/migrate.ts:155-182 | the pre-check keeps exactly the unmigrated quotes with one of the six statuses, and what it drops needs no migration |
| MigrationSafety.StepIsSound | scripts/upgrade/migrate.ts:151-299 | every event keeps the invariant: what is not done is still ahead of the process |
| MigrationSafety.SuccessMeansComplete | scripts/upgrade/migrate.ts:93-339 | over every run with safe starts, success means all quotes and pairs migrated, each effect once |
| MigrationSafety.SkippingThePreCheckIsAlwaysSafe | scripts/upgrade/migrate.ts:155-182 | with skipPreCheck every start is safe |
| MigrationResume.UnsafeResumeSkipsQuote | scripts/upgrade/migrate.ts:156-184 | resuming the quotes phase with the pre-check from a saved index never migrates the first pending quote |
| MigrationResume.UnsafeResumeSkipsPair | scripts/upgrade/migrate.ts:233-261 | the same for the first pending counterparty of the resumed hedger |
| MigrationResume.QuotesAheadIff | scripts/upgrade/migrate.ts:156-184 | a resume of the quotes phase with the pre-check keeps every pending quote ahead of the process iff the saved chunk index is -1 or nothing is pending |
| MigrationResume.PairsAheadIff | scripts/upgrade/migrate.ts:233-261 | the same for the counterparties of the resumed hedger |
| MigrationResume.PreCheckResumeCounterRun | scripts/upgrade/migrate.ts:181-210 | a concrete run: one chunk saved, a crash, a success report without quote 2 |
| MigrationResume.ZeroConfirmationsCounterRun | scripts/upgrade/migrate.ts:369-381 | with zero confirmations every configuration on every chain has a run that ends in a success report without any effect |
| MigrationResume.ConfirmationsIff | scripts/upgrade/migrate.ts:369-381 | success reports of safe runs mean a complete migration iff confirmations are waited for or nothing was left to do |
| MigrationRetries.DeliveryIff | scripts/upgrade/migrate.ts:345-409 | when the listed quotes have room, an operation goes through, whatever lands in between, iff one of its first maxRetries attempts is mined, or is submitted with zero confirmations |
| MigrationRetries.RunWorldListed | scripts/upgrade/migrate.ts:151-299 | in every run all that is migrated or waits in the mempool is listed or was migrated before |
| MigrationRetries.ListedNeverReverts | contracts/core/facets/Migration/MigrationFacetImpl.sol:32-87 | when no listed open quote is closed beyond its quantity and the listed quotes fit the limits together, no batch of them reverts, whichever were migrated before |
| MigrationScript.Session.ExecuteOperation | scripts/upgrade/migrate.ts:345-409 | success iff one of the first maxRetries attempts delivers, with the outcome and the effect of the first that does; failure means that all were made, and leaves what they left |
| MigrationScript.Session.Send | scripts/upgrade/migrate.ts:193-210 | gives up iff no attempt delivers, dies only by a crash, and records what it delivered |
| MigrationScript.Session.MigrateQuotesPhase | scripts/upgrade/migrate.ts:151-214 | phase 1 refines the machine |
| MigrationScript.Session.MigratePartyB | scripts/upgrade/migrate.ts:224-295 | one hedger's task refines the machine |
| MigrationScript.Session.Migrate | scripts/upgrade/migrate.ts:93-339 | one invocation, from loading the progress file to deleting it; success means complete if all starts were safe, success comes if some attempt of every operation gets through, the listed quotes have room and nothing crashes, and then the file is gone if it can be written |
| MigrationScript.Session.Operate | scripts/upgrade/migrate.ts:106-124 | any number of restarts without the pre-check: success means complete, and in a favourable session there is success |
| MigrationResume.CrashLosesNothing | scripts/upgrade/migrate.ts:184-210 | over every run in which saving works the file is never behind: a process started after a crash has the progress that the last one had |
| MigrationInput.FilterBoundary | scripts/upgrade/prepareMigrationInput.ts:173-188 | exactly the quotes up to the chain's last id, each at its place among those |
| MigrationInput.BuildTasks | scripts/upgrade/prepareMigrationInput.ts:211-224 | a pair is among the tasks iff some listed quote has it and its hedger is known |
| MigrationInput.PreparedTasks | scripts/upgrade/prepareMigrationInput.ts:211-224 | tasks built from quotes are one per hedger, each with distinct real counterparties |
| MigrationInput.BuildExpectedAggregates | scripts/upgrade/prepareMigrationInput.ts:229-243 | each key's entry is the sum of its open amounts per side; keys that add nothing are absent |
| MigrationInput.AggregatesMatch | scripts/upgrade/prepareMigrationInput.ts:226-243 | after all prepared quotes are migrated in any order and chunking, the chain's aggregates are the prepared ones |
| MigrationInput.KeySplitsBack | scripts/upgrade/runMigration.ts:300 | the dash-joined key splits back into its three parts |
| MigrationVerify.VerifyMigration | scripts/upgrade/runMigration.ts:225-321 | no error iff every quote, task and expected aggregate passes |
| MigrationVerify.TaskPassesIff | scripts/upgrade/runMigration.ts:255-294 | after any run, finished or not, a task passes iff its first counterparty is migrated and no other that is not has anything locked |
| MigrationVerify.CrossLockedMatches | scripts/upgrade/runMigration.ts:255-294 | a cross bucket is the sum over the hedger's counterparties when exactly those were migrated |
| MigrationVerify.RunMigratesOnlyInput | scripts/upgrade/migrate.ts:151-299 | no run migrates anything outside its input |
| MigrationVerify.CompletedQuotesVerify | scripts/upgrade/runMigration.ts:232-252 | after a successful safe run a listed quote, stored or not, passes iff its record is not a phantom |
| MigrationVerify.CompletedRunVerifies | scripts/upgrade/runMigration.ts:225-321 | after a successful safe run on prepared input the tasks verify, the quotes do iff none is a phantom, and the aggregates are the prepared ones if the listed open quotes are stored as listed |
| MigrationVerify.VerifyPrepared | scripts/upgrade/runMigration.ts:225-321 | prepare, migrate, verify: the verifier finds no error iff no listed quote is a phantom |
| MigrationVerify.PhantomCounterRun | scripts/upgrade/runMigration.ts:232-252 | a concrete run: a listed quote that was never stored, a success report, and the verifier reports that quote |
| Bytecode.ExtractPlaceholders | scripts/upgrade/verifyDeploy.ts:99-120 | the leftmost non-overlapping placeholders, in order |
| Bytecode.CollectAddresses | scripts/upgrade/verifyDeploy.ts:130-136 | one address per library read from its slots, or two slots of one library that differ |
| Bytecode.LinkLibraries | scripts/upgrade/verifyDeploy.ts:138-141 | replacing one library after the other fills slots only, and all of them when placeholders do not overlap |
| Bytecode.LinkAndCompare | scripts/upgrade/verifyDeploy.ts:122-169 | a match iff some assignment of one address per library links compiled to deployed; otherwise the first genuine difference; a match returns an address for exactly the libraries with a placeholder |
| LinkedText.LinkableIff | scripts/upgrade/verifyDeploy.ts:122-169 | for any text of hex pieces and placeholders, and the same text with addresses in their place: a match is possible iff no library stands at two addresses |
| LinkedText.WrittenIsFound | scripts/upgrade/verifyDeploy.ts:99-120 | the placeholders found in such a text are those written into it, with their hashes and offsets |
| LinkedText.MatchGives | scripts/upgrade/verifyDeploy.ts:122-148 | on a match the returned libraries map each hash to the address that stands for it |
| LinkedText.TwoLibraries | scripts/upgrade/verifyDeploy.ts:130-146 | two placeholders, any pieces around them: linkable iff the hashes differ or the addresses are the same |
| Bytecode.FillMore | scripts/upgrade/verifyDeploy.ts:138-141 | addresses never create or destroy a placeholder: filling a filled text is filling the original |
| Immutables.MaskImmutables | scripts/upgrade/verifyPeripheralsDeploy.ts:174-198 | the nested loops mask all ranges of all immutables |
| Immutables.MaskPointwise | scripts/upgrade/verifyPeripheralsDeploy.ts:184-195 | for any order and overlap of ranges inside the code, zeros inside and the original outside, length kept |
| Immutables.MaskedEqualIff | scripts/upgrade/verifyPeripheralsDeploy.ts:184-195 | masked codes are equal iff the codes agree outside the ranges |
| Immutables.MaskAndLinkCommute | scripts/upgrade/verifyPeripheralsDeploy.ts:200-247 | linking masked code is masking linked code |
| Immutables.VerifyContract | scripts/upgrade/verifyPeripheralsDeploy.ts:300-360 | a contract is accepted iff the masked codes link; for ranges inside the deployed code that is equality up to immutables and library addresses, otherwise the codes are never equal, and with no immutable at the end acceptance is equality for every deployed code |
| Immutables.DecidesEqualityIff | scripts/upgrade/verifyPeripheralsDeploy.ts:174-198 | for code that some deployed code equals: acceptance is equality up to immutables and library addresses for every deployed code iff no nonempty immutable ends at the code's end |
| Immutables.TruncatedCodePassesForExact | scripts/upgrade/verifyPeripheralsDeploy.ts:193-194 | code truncated at a final immutable passes for an exact match |
| BridgeContract.BridgeFacet.Transfer | contracts/core/facets/Bridge/BridgeFacetImpl.sol:19-57 | the five rejections in order, or the debit, the lock and the record |
| BridgeContract.BridgeFacet.Withdraw | contracts/core/facets/Bridge/BridgeFacetImpl.sol:60-80 | the five rejections in order, or the payout |
| BridgeContract.BridgeFacet.WithdrawMany | contracts/core/facets/Bridge/BridgeFacetImpl.sol:83-110 | all or nothing, checked from the last id to the first |
| BridgeContract.BridgeFacet.Suspend | contracts/core/facets/Bridge/BridgeFacetImpl.sol:113-120 | suspends a received transaction |
| BridgeContract.BridgeFacet.Restore | contracts/core/facets/Bridge/BridgeFacetImpl.sol:123-139 | releases a suspended transaction with a reduced amount and credits the rest to the pool |
| BridgeSafety.RunSound | test/BridgeFacet.behavior.ts:386-400 | over every run the lock is the sum of received and suspended amounts plus the other facets' part, covered by collateral, and every bridge was paid exactly its withdrawn transactions |
| BridgeSafety.WithdrawSound | test/BridgeFacet.behavior.ts:213-290 | in a reachable ledger a withdrawal fails for none but its five stated reasons |
| BridgeSafety.BatchIsOneByOne | contracts/core/facets/Bridge/BridgeFacetImpl.sol:83-110 | a batch is its single withdrawals, with the same error when one fails |
| BridgeSafety.BatchSucceedsIff | test/BridgeFacet.behavior.ts:292-345 | a batch goes through iff its ids are distinct and each could be withdrawn by itself, whatever their order |
| BridgeSafety.BatchDoneIff | contracts/core/facets/Bridge/BridgeFacetImpl.sol:83-110 | in a reachable ledger the whole call goes through iff its ids are distinct and each could be withdrawn alone |
| BridgeSafety.EmptyIsSound | test/BridgeFacet.behavior.ts:386-400 | a contract without transactions is a sound start |
| BridgeClaims.CallDoneIff | contracts/core/facets/Bridge/BridgeFacetImpl.sol:19-139 | in a reachable ledger a call goes through iff its conditions, spelled out, hold: for a claim a received transaction with id at most lastId, claimed by its own registered bridge at or after timestamp plus cooldown; for a batch distinct ids that are all due |
| BridgeClaims.CallMoves | contracts/core/facets/Bridge/BridgeFacetImpl.sol:19-139 | what each call does to every record and to every balance: a transfer debits its user, a restored transaction credits the pool with what it loses, and nobody else's balance moves; a refused call moves nothing |
| BridgeClaims.RefusalIsJustified | contracts/core/facets/Bridge/BridgeFacetImpl.sol:19-139 | in a reachable ledger every refusal names a reason that is true of the call |
| BridgeClaims.WithdrawnIff | contracts/core/facets/Bridge/BridgeFacetImpl.sol:60-110 | a step withdraws a transaction iff it is a claim of it, alone or in a batch, that is due |
| BridgeClaims.PayoutWasDue | contracts/core/facets/Bridge/BridgeFacetImpl.sol:60-110 | over every run a transaction withdrawn at its end was due when one event collected it, and has not changed since |
| BridgeClaims.EveryPayoutHasItsStory | contracts/core/facets/Bridge/BridgeFacetImpl.sol:19-110 | over every run an allowed transfer by its user to its bridge opened each withdrawn transaction, and at least the cooldown later that bridge, then registered, collected it |
| BridgeSafety.RunKeepsRecords | test/BridgeFacet.behavior.ts:131-144 | records keep their parties and time, amounts only fall, withdrawn is final |
| BridgeSafety.RunKeepsIndex | contracts/core/facets/Bridge/BridgeFacetImpl.sol:50-51 | a bridge's list names exactly its transactions |
| BridgeValue.To18IsExact | contracts/core/libraries/LibAccount.sol:301-303 | up to 18 decimals the conversion loses nothing |
| BridgeValue.RunConserves | test/BridgeFacet.behavior.ts:182-204 | over every run of bridge calls value and tokens are conserved |
| BridgeValue.ConservedIff | test/BridgeFacet.behavior.ts:182-204 | value and tokens are conserved over every run of bridge calls iff the token has at most 18 decimals |
| BridgeValue.DustIsBridgedForFree | contracts/core/libraries/LibAccount.sol:301-303 | beyond 18 decimals one unit is bridged for nothing |
| Lanes.EveryRun | scripts/upgrade/snapshotBalances.ts:105-119 | in every interleaving each index is claimed once and in order, at most max(1, min(concurrency, n)) calls are in flight, and results are in their slots |
| Lanes.ResolvedHasAllResults | scripts/upgrade/snapshotBalances.ts:105-119 | when all lanes are back every item has its own result |
| Lanes.StepDecreasesRank | scripts/upgrade/snapshotBalances.ts:108-114 | every effective step brings a run closer to its end |
| Lanes.NeverStuck | scripts/upgrade/snapshotBalances.ts:108-114 | a lane that is not finished can always go on |
| Lanes.AllLanesWork | scripts/upgrade/snapshotBalances.ts:105-119 | as many calls run at once as were asked for, each on its own index |
| Lanes.WithRetry | scripts/upgrade/snapshotBalances.ts:87-103 | the first success within maxRetries + 1 attempts, waiting the capped doubling in between |
| TestPool.RunAll | utils/parallel-test-runner.js:387-423 | each file is run exactly once and its suite holds what its process reports, as many run at a time as there are workers or files, and totals and failures are those of the suites |
| TestPool.LaunchAll | utils/parallel-test-runner.js:400-418 | the inner loop starts waiting files in order until none is left or jobs are running |
| TestPool.SpinsIff | utils/parallel-test-runner.js:399-423 | with files waiting and nothing running, the inner loop starts nothing iff jobs is not positive |
| Imports.NormalizePath | scripts/verify-etherscan-api.ts:124-130 | a path of names, the same path iff it was one already, and normalizing again changes nothing |
| Imports.DotsAnywhere | scripts/verify-etherscan-api.ts:124-130 | anywhere in a path a dot means nothing and a double dot takes back the name before it |
| Imports.NormalFormIsUnique | scripts/verify-etherscan-api.ts:124-130 | a function obeys those laws and keeps paths of names iff it is the loop's |
| Imports.ResolveImport | scripts/verify-etherscan-api.ts:109-133 | remappings first, then the import itself, then the relative path; only ever a known source |
| Imports.RemapText | scripts/verify-etherscan-api.ts:110-118 | a remapping context:prefix=target rewrites exactly the imports that start with its prefix, and puts its target there |
| Imports.ResolvesByFirstHit | scripts/verify-etherscan-api.ts:109-133 | an import is resolved by the first remapping whose prefix begins it and whose result is a source; without one, as itself or relatively |
| Imports.TraceImports | scripts/verify-etherscan-api.ts:135-151 | exactly the sources that the root reaches, cycles included: every import of a visited source that resolves, and nothing that no visited source imports |
| Imports.BuildStubbedInput | scripts/verify-etherscan-api.ts:157-176 | the same files in the same order, needed ones unchanged, every other one a stub of its own |
| Imports.StubbingKeepsReach | scripts/verify-etherscan-api.ts:153-176 | the stubbed build has the same import closure |
| Imports.SiblingOfFile | scripts/verify-etherscan-api.ts:122-131 | a sibling import of a file in a directory of any depth, without dots, names that sibling |
| Imports.ParentImport | scripts/verify-etherscan-api.ts:122-131 | a parent import from one directory further down is the sibling import from here |
| Imports.SiblingOfRootFile | scripts/verify-etherscan-api.ts:122-131 | a sibling import of a file outside any directory does not |
| Imports.SiblingIff | scripts/verify-etherscan-api.ts:122-131 | for any importing file: its sibling is named iff its directory has no dots, or it has none and is called a dot or two and one more letter |
| Checkpoint.Deployment.CheckpointedStep | tasks/deploy/checkpoint.ts:112-136 | skipped iff recorded; otherwise executed and then recorded |
| Checkpoint.Deployment.CheckpointedBatch | tasks/deploy/checkpoint.ts:148-170 | executes the remaining items in order, recording each, up to the first mishap |
| Checkpoint.Deployment.RunScript | tasks/deploy/checkpoint.ts:112-170 | any script from any progress: one process executes what is to do up to the first act that throws or meets a crash, recording all before that act, and finishes iff there is none |
| Checkpoint.Deployment.Deploy | tasks/deploy/checkpoint.ts:112-170 | over any crashes and restarts and whatever the keys, it finishes iff fewer acts meet a mishap than there are starts; finishing means that everything was executed, and from a fresh checkpoint first executions keep the script's order; when no key is shared they do so from any checkpoint and each process repeats at most one act; everything is recorded iff no key is shared |
| Checkpoint.RecordedIff | tasks/deploy/checkpoint.ts:66-98 | from any progress, a finished script has everything recorded iff no key is shared by a step and a batch |
| Checkpoint.OrderIff | tasks/deploy/checkpoint.ts:112-170 | two processes that finish keep the script's order from every checkpoint iff no key is shared |
| Checkpoint.RestartIff | tasks/deploy/checkpoint.ts:123-170 | a finished script that is started again has nothing to do iff no key is shared |
| Checkpoint.NeverRedoneIff | tasks/deploy/checkpoint.ts:123-170 | no process, from any progress, does anything twice or anything recorded iff no key is shared and no batch lists twice what no earlier one lists |
| Checkpoint.ListedTwiceDoneTwice | tasks/deploy/checkpoint.ts:155-167 | a batch that lists an item twice executes it again after its first completion was saved |
| Checkpoint.SharedKeyForgets | tasks/deploy/checkpoint.ts:83-98 | a step and a batch with one key erase each other's record |
| DeployDiamond.CheckOnChain | tasks/deploy/diamond.ts:341-355 | the resume test: facets() answers, with more than one facet |
| DeployDiamond.LooksDoneCounts | tasks/deploy/diamond.ts:341-355 | the resume test in numbers: facets() is registered, more than one facet is, and none serves more than 255 selectors |
| DeployDiamond.RunCut | tasks/deploy/diamond.ts:338-391 | one deployment run from the cut on, with a crash after any number of chunks |
| DeployDiamond.AfterRegisters | tasks/deploy/diamond.ts:369-386 | after k chunks exactly the first 6k facets are registered |
| DeployDiamond.ResumeOutcome | tasks/deploy/diamond.ts:338-395 | what resuming does at every crash point |
| DeployDiamond.ResumeCompletesIff | tasks/deploy/diamond.ts:338-395 | resuming completes the diamond iff no chunk or all chunks were applied |
| DeployDiamond.CoreDiamondResume | tasks/deploy/constants.ts:1-30 | for the core diamond: stuck after the first chunk, falsely complete after the second to fourth |
| DeployDiamond.AttemptsReach | tasks/deploy/diamond.ts:338-395 | over any crashes and restarts the diamond has some number of whole chunks |
| MsgPack.MsgpackEncode | tasks/deploy/hyperevm.ts:10-32 | the encoding, or the first error in order |
| MsgPack.EncodableIff | tasks/deploy/hyperevm.ts:10-44 | exactly maps of at most 15 entries with strings of at most 255 bytes are encoded |
| MsgPack.RoundTrip | tasks/deploy/hyperevm.ts:10-44 | the bytes decode to the same entries in the same order, whatever follows them |
| MsgPack.PrefixFree | tasks/deploy/hyperevm.ts:10-44 | no encoding is the beginning of another |
| MsgPack.ConstructPreimage | tasks/deploy/hyperevm.ts:69-84 | the buffer holds the action, the big-endian nonce and the vault marker |
| MsgPack.PreimageInjective | tasks/deploy/hyperevm.ts:61-84 | two requests share a preimage iff they have the same entries and nonces equal modulo 2^64 |
| MsgPack.PreimageReads | tasks/deploy/hyperevm.ts:61-84 | a reader of the preimage finds the action, then eight bytes that make the nonce modulo 2^64, then one zero byte |
| MsgPack.ToggleBytes | tasks/deploy/hyperevm.ts:10-44 | the toggle's own action, byte by byte |
| Pagination.FetchAll | scripts/upgrade/utils/subgraphHelpers.ts:65-108 | every matching record beyond the start, once and in order, ending with the request that comes back short |
| Pagination.MoveCursor | scripts/upgrade/utils/subgraphHelpers.ts:100-101 | moving the cursor leaves exactly what was behind the page |
| Pagination.StartAtZero | scripts/upgrade/utils/subgraphHelpers.ts:69-75 | starting at 0 misses nothing iff matching ids are positive |
| SigChecks.ModifySignatureChecks | utils/update_sig_checks.py:12-39 | each line between the markers gets slashes before it, or loses everything up to its first slashes with a space, unless it is a comment already or none; all other lines stay; it fails iff a comment to be taken away has no space after its slashes |
| SigChecks.InsideIff | utils/update_sig_checks.py:16-26 | a line is between the markers iff some line before it has the opening marker and none since has only the closing one |
| SigChecks.RoundTripIff | utils/update_sig_checks.py:5-42 | commenting and uncommenting restores a file iff no marked line starts as a comment or becomes a marker |
| SigChecks.CommentTwice | utils/update_sig_checks.py:28-30 | commenting twice is commenting once |

## Left out

- Diamond.DiamondStorage.DiamondCut: the delegatecall to an initializer at its end is not modelled; the upgrade passes none.
- UpgradeScripts.BuildDiamondCut: the selectorChanges report and its names are not modelled; they do not influence the cut.
- UpgradeScripts.ReadSelectors: addresses are compared as numbers, so the mixed letter case of address strings is not modelled.
- BatchVerifier.VerifyTimelockBatches: the text form of numbers is not modelled.
- MigrationContract.MigrationFacet.MigrateBatch: global per-hedger and per-user aggregates, notional values and the funding baseline are not modelled; the per-pair amounts, reserved fees, position counts and connections are.
- MigrationScript.Session.Migrate: the counters of the report, dryRun and the waiting times between retries are not modelled.
- MigrationInput.BuildTasks: the order of tasks and counterparties is not modelled; nothing proved depends on it.
- Immutables.VerifyContract: the extracted immutable values, which are only reported, are not modelled.
- BridgeContract.BridgeFacet.Transfer: amounts are unbounded; the overflow reverts of 256-bit arithmetic are not modelled.
- Imports.TraceImports: parseImports, a regular expression, is a parameter.
- Checkpoint.Deployment.CheckpointedBatch: the index that is passed to the action is not modelled.
- DeployDiamond.RunCut: the initializer call that goes with the first chunk is not modelled, nor a cut transaction that is still pending when the process dies.
- DeployDiamond.ResumeOutcome: facets with more than 255 selectors, for which the loupe reverts, are excluded.
- TestPool.RunAll: a number of workers that is not positive is excluded unless there are no files; TestPool.SpinsIff says what happens then. Progress output and timing are not modelled.
- MsgPack.MsgpackEncode: strings are their UTF-8 bytes; the replacement of lone surrogates is not modelled.
- Pagination.FetchAll: ids are their rank in the subgraph's order, and the service's own page limit is not modelled.
- SigChecks.ModifySignatureChecks: of Unicode's white space only the part up to U+00A0 is modelled, and lines are as Python reads them, with their line ends already translated.
- Ownership transfer and the other loupe functions of the diamond: short and independent of the selector table.
- The symbol copying of scripts/copySymbols.ts and the transaction list comparison of the batch verifier: single loops over lists.
- Safe batch generation and verification, post-migration and role batches: the generator adds transactions that the verifier does not rebuild.
- Pausing, roles and suspension checks around the bridge calls: guards in front of the modelled code.
- Access to the chain, the explorer, the subgraph and the file system: replaced by parameters and by choices of the environment.
- Configuration, reports, logging, prompts, CREATE2 salt mining, health checks and gas reports.
