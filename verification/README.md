# Verified model of the signed exchange and the offline deployment history

This project models the parts of VulnFlow that keep promises across files, runs
and processes, and proves those promises for every input, every run and every
pattern of failing operations:

* **Append-only signed chains** shared by processes that take no lock: the
  acceptance ledger, the checkpoint series, and the transfer bundles that carry a
  series to another host (`AcceptanceLedger`, `CheckpointSeries`,
  `SeriesTransfer`, and `ExchangeProtocol` for all interleavings).
* **Deployment activation and history**: renames beside the target with nested
  undo, sealed retained trees, pruning, key rotation, keyring restore, rollback to
  a retained deployment, and the HMAC audit chain (`Activation`,
  `TreeAttestation`, `RetainedDeployments`, `KeyLifecycle`, `RetainedRollback`,
  `AuditLog`, `HistoryKeyring`).
* **The signed exchange**: text manifests, request and response verification, and
  the source snapshot taken while the source may change (`PayloadManifest`,
  `ResponseExchange`, `SourceSnapshot`).
* **Two bounded algorithms**: restoring a runtime snapshot, and the dependency
  closure worklist (`RuntimeSnapshot`, `DependencyClosure`).

`HashChain`, `Ordering`, `SlotDirectory`, `TextLines`, `DeploymentTree` and
`Prelude` hold the notions these share. Run `dafny verify dfyconfig.toml` to check
everything.

## How the world is modelled

* A digest is the text the programs compare. A hash function is a parameter, and
  it is not assumed injective: where the programs rely on collision resistance the
  theorem says "equal, or here are two different files with one digest", and the
  two files are always ones that the theorem speaks of.
* Ed25519 (section 5.1 of RFC 8032) and HMAC (section 2 of RFC 2104) are ideal: a
  signature or tag is the pair of the key and what it covers.
* A file's bytes are what its reader makes of them plus a layout, so two files are
  equal exactly when their bytes are. Text formats are modelled where they matter:
  the manifest lines, the audit log's bytes and the line stream of the tree
  attestation are real strings.
* Every rename, chmod, sync, write and removal that the modelled functions perform
  may fail: which ones do is an arbitrary function `fails` of the operation's
  number. What a method ends with is computed from that function beforehand - success,
  undo, and where it stops - so that no method can meet its contract by giving up.
  `Reliable(fails)` says that nothing fails; the lemmas about it give the plain
  conditions that are left then.
* A class stands for a directory, a log or a keyring file that the programs update
  in place. Each of its methods is tied to a function of the old state, and the
  lemmas are about those functions.

## What the code does that its documentation does not say

* `docs/99_OFFLINE_DEPLOYMENT_KEY_LIFECYCLE_AND_AUDIT.md:36` promises that rotation
  restores everything if any step fails. A failure of the chmod or sync after the
  keyring was renamed is outside the guarded block: the keyring stays rotated and
  no managed deployment verifies any more (outcome `RotatedButUnsealed` of
  `KeyLifecycle.RotateKey`, which says exactly when).
* A seal attempt that fails after creating its temporary file leaves that file in
  the tree. The attestation sees it, so an intact deployment stops verifying, and
  restoring its old seal does not help (`RetainedDeployments.StrayBreaksSeal`). Of n
  deployments that a rotation reseals, the first whose second or third write fails
  is lost that way (`KeyLifecycle.LostDeployment`).
* The chmod of the displaced target is never undone: a 0755 target comes back from
  a failed activation as 0700 (`Activation.ParentDirectory.Activate` says exactly
  when it comes back as it was).
* A missing keyring is created in place, unlike every later write: interrupted, it
  leaves a file that no later call can read
  (`HistoryKeyring.KeyringFile.EnsureKey`).
* An audit record is written before the event limit is checked again, and a log
  whose last line is unterminated swallows the next record: in both cases the log
  never verifies again (`AuditLog.OverrunNeverPasses`).
* Ledger verification looks at the order of file names only; a ledger with a name
  above its receipt count verifies and can never grow
  (`AcceptanceLedger.AcceptNeedsLowNames`), and eight-digit names end every chain at
  99 999 999. The same holds of a checkpoint series
  (`CheckpointSeries.AppendNeedsLowNames`), and a requester-signed series with such
  names installs like any other: named 1, 2, 5 it verifies at the destination, but
  no checkpoint can be appended there, and installing one named 1, 2, 3, 4 breaks it
  (`SeriesTransfer.InstallJoins`, `ExchangeProtocol.NamesDecideGrowth`).
* Snapshot inspection accepts a manifest that lists a path twice; restoring it
  always fails (`RuntimeSnapshot.RepeatedPathNeverRestores`;
  `RuntimeSnapshot.InspectedRestores` gives the exact condition).

## Model

| member | source | states |
|---|---|---|
| HashChain.SameDigestSamePrefix | scripts/external_validation_acceptance.py:505-543 | backward induction along predecessor links: equal digests at position k force equal files up to k, or an explicit collision |
| Ordering.SortedStringsFacts | scripts/external_validation_exchange.py:454 | sorted() on a finite set lists each element once, ascending by code point |
| SlotDirectory.ContiguousFiles | scripts/external_validation_acceptance.py:272-283 | with names 1..n, sorted position k - 1 is the file named k |
| SlotDirectory.LinkAppends | scripts/external_validation_acceptance.py:96-119 | an exclusive link into names 1..n fails on a taken name and otherwise appends, unless the number outgrew eight digits |
| SlotDirectory.NumberedScanIsPrefix | scripts/external_validation_acceptance.py:272-283 | a directory scan that raced with writers, and whose files are numbered 1..m, returned exactly the first m files |
| AcceptanceLedger.VerifyAcceptanceLedger | scripts/external_validation_acceptance.py:468-582 | passes exactly for an intact header, no stray name, a contiguous signed hash chain without repeated request, and a met minimum; on failure it reports the longest valid run |
| AcceptanceLedger.VerifyReceipts | scripts/external_validation_acceptance.py:505-543 | the loop stops at the first receipt that breaks the chain, and the report describes exactly the receipts before it |
| AcceptanceLedger.CheckpointPinsLedger | scripts/external_validation_acceptance.py:560-571 | a valid ledger meets the checkpoint of an older valid ledger exactly when it extends it, or the two ledgers collide |
| AcceptanceLedger.OnlyInitialisedLedgerPasses | scripts/external_validation_acceptance.py:442-465 | a new ledger passes, and whatever passes is such a ledger with a valid run of receipts and no other file in it |
| AcceptanceLedger.AcceptedByFacts | scripts/external_validation_acceptance.py:535-537 | the map of accepted requests answers exactly for the recorded requests |
| AcceptanceLedger.AcceptedByRecords | scripts/external_validation_acceptance.py:628-632 | replay and equivocation are told apart by what the ledger records |
| AcceptanceLedger.OnlyNextReceiptAppends | scripts/external_validation_acceptance.py:505-543 | verification takes as the next receipt exactly what an acceptor signs for some well-formed decision on a request not yet recorded, in any layout |
| AcceptanceLedger.AcceptKnownRequest | scripts/external_validation_acceptance.py:628-632 | a recorded request changes nothing: the same response is a replay, any other an equivocation |
| AcceptanceLedger.AcceptTwice | scripts/external_validation_acceptance.py:585-688 | for every ledger and decision a second equal call leaves the ledger of the first and answers as its outcome determines; after an acceptance it is a replay |
| AcceptanceLedger.AcceptKeepsPassing | scripts/external_validation_acceptance.py:585-688 | a ledger that does not pass is left alone; one named 1..n that passes still passes after any well-formed decision below eight digits, keeps its receipts, and then records the request |
| AcceptanceLedger.AcceptRecordsNewRequest | scripts/external_validation_acceptance.py:635-678 | in a verified ledger named 1..n a new request is recorded at n + 1 exactly when eight digits can print n + 1; otherwise the published file blocks every later verification |
| AcceptanceLedger.AcceptNeedsLowNames | scripts/external_validation_acceptance.py:508-518 | any passing ledger takes a new request exactly when no file name is above its receipt count and the next number prints |
| AcceptanceLedger.AcceptanceStore.AcceptResponse | scripts/external_validation_acceptance.py:585-688 | the new ledger and the outcome are those of the specification that the lemmas above are about, replay and equivocation included |
| CheckpointSeries.VerifyCheckpoints | scripts/external_validation_acceptance.py:347-378 | the loop reports the longest valid run of checkpoints |
| CheckpointSeries.VerifyCheckpointSeries | scripts/external_validation_acceptance.py:322-388 | passes exactly for an intact header, no stray name and a signed chain with increasing receipt counts |
| CheckpointSeries.CountsIncrease | scripts/external_validation_acceptance.py:347-378 | receipt counts rise strictly between any two checkpoints of a valid series |
| CheckpointSeries.SeriesHeadPinsPrefix | scripts/external_validation_acceptance.py:347-378 | two valid series with one head digest at generation k agree up to k, or collide |
| CheckpointSeries.OnlyInitialisedSeriesPasses | scripts/external_validation_acceptance.py:299-319 | a new series passes, and whatever passes is such a series with valid checkpoints and no other file in it |
| CheckpointSeries.NextCheckpointContinues | scripts/external_validation_acceptance.py:404-440 | what append builds on a verified series and a ledger that advanced always continues the series |
| CheckpointSeries.OnlyNextCheckpointContinues | scripts/external_validation_acceptance.py:347-378 | verification takes as the next checkpoint exactly what the requester signs for some well-formed pin beyond the newest one, in any layout |
| CheckpointSeries.AppendNeedsLowNames | scripts/external_validation_acceptance.py:391-440 | a passing series takes the checkpoint of an advancing ledger exactly when no file name is above its checkpoint count and the next number prints; then it is appended at the end and the series still passes |
| CheckpointSeries.AppendRecordsLedger | scripts/external_validation_acceptance.py:391-440 | a passing series named 1..n grows by exactly that checkpoint exactly while eight digits can print n + 1; otherwise the published file blocks every later verification |
| CheckpointSeries.AppendKeepsPassing | scripts/external_validation_acceptance.py:391-440 | a series that does not verify is left alone; one named 1..n grows exactly for a passing ledger that meets its newest pin and goes beyond it, answers "nothing new" or refuses the ledger otherwise, and verifies in all cases |
| CheckpointSeries.AppendTwice | scripts/external_validation_acceptance.py:415-419 | after an append the same ledger has nothing new, and the series stays as it is |
| CheckpointSeries.CheckpointStore.AppendCheckpoint | scripts/external_validation_acceptance.py:391-440 | new series and outcome are those of the specification that the lemmas above are about; the ledger is checked against the newest pin |
| ExchangeProtocol.StepSound | scripts/external_validation_acceptance.py:585-688 | every step of every process keeps the ledger valid, named 1..n and growing only at the end, and the series too unless the step opens a bundle with other names |
| ExchangeProtocol.UndisturbedAcceptor | scripts/external_validation_acceptance.py:585-688 | the steps refine the one-process specification: an acceptor nobody disturbs can take all of its steps, and they leave exactly the ledger that accepting leaves |
| ExchangeProtocol.UndisturbedAppender | scripts/external_validation_acceptance.py:391-440 | the same of an appender and the series |
| ExchangeProtocol.EveryStateSound | scripts/external_validation_checkpoint_transfer.py:346-398 | in every interleaving of any number of acceptors, appenders and installers both chains verify after every step, are named 1..n, and no request is recorded twice, as long as the opened bundles are named 1..n |
| ExchangeProtocol.EveryLedgerSound | scripts/external_validation_acceptance.py:585-688 | the ledger half holds in every interleaving, whatever signed bundles are opened and whatever the digests of checkpoints |
| ExchangeProtocol.BundleNamesDecide | scripts/external_validation_checkpoint_transfer.py:374-376 | each signed bundle can be installed into a fresh series by some run, and that leaves the series named 1..n if and only if the bundle is |
| ExchangeProtocol.NamesDecideGrowth | scripts/external_validation_checkpoint_transfer.py:374-376 | when a later run brings such a series the next generation in a bundle named 1..n + 1, the series stays as it is if that name is taken, grows if all names are at most n, and otherwise stops verifying |
| ExchangeProtocol.PublishedFilesStay | scripts/external_validation_checkpoint_transfer.py:312-343 | in every interleaving, whatever signed bundles are opened, no published file of either directory is ever removed or changed |
| ExchangeProtocol.ChainsOnlyGrow | scripts/external_validation_checkpoint_transfer.py:312-343 | with bundles named 1..n, an earlier chain is moreover a prefix of every later one |
| ExchangeProtocol.LinkedReceiptIsPermanent | scripts/external_validation_acceptance.py:669-678 | a receipt whose link succeeded stays at its own position in every later ledger, exactly when its number fits the name pattern |
| ExchangeProtocol.ForkedNamesExclude | scripts/external_validation_checkpoint_transfer.py:312-343 | in every interleaving, of two installers whose bundles hold different files under one name at most one ever gets past that name |
| ExchangeProtocol.ForkedInstallersExclude | scripts/external_validation_checkpoint_transfer.py:361-397 | with bundles named 1..n, of two installers whose bundles differ at a generation at most one ever gets past it |
| ExchangeProtocol.ForkedBundlesBothPass | scripts/external_validation_checkpoint_transfer.py:361-378 | by generation this needs the names 1..n: two bundles that fork under different names can both get past the fork, and the series they leave does not verify |
| ExchangeProtocol.CheckpointsTellTheTruth | scripts/external_validation_acceptance.py:404-440 | every checkpoint names the true count, digest, request and response of a prefix of every later ledger, and later checkpoints name strictly longer prefixes |
| ExchangeProtocol.ExportedBundlesAreTrue | scripts/external_validation_checkpoint_transfer.py:125-184 | in a run whose opened bundles were all exported from this series at some earlier moment, every opened bundle is named 1..k and pins this ledger, so the theorems on such runs need no assumption on bundles |
| SeriesTransfer.VerifyTransfer | scripts/external_validation_checkpoint_transfer.py:236-289 | passes exactly when signature, series, inventory, tree digest and head fields agree |
| SeriesTransfer.BuiltTransferPasses | scripts/external_validation_checkpoint_transfer.py:125-184 | every verified non-empty series has a transfer and that transfer passes |
| SeriesTransfer.OnlyBuiltTransferPasses | scripts/external_validation_checkpoint_transfer.py:236-289 | verification accepts exactly the transfer that the requester builds from the series it carries |
| SeriesTransfer.StatementFixesSeries | scripts/external_validation_checkpoint_transfer.py:236-289 | two passing transfers with one signed statement carry the same files under the same names, or hold colliding checkpoints under one name |
| SeriesTransfer.CompareDigests | scripts/external_validation_checkpoint_transfer.py:371-373 | the comparison loop succeeds exactly when every installed digest equals the incoming one |
| SeriesTransfer.PublishMissing | scripts/external_validation_checkpoint_transfer.py:374-378 | the publication loop leaves exactly the directory and end of its specification, also when interrupted |
| SeriesTransfer.InstallTransfer | scripts/external_validation_checkpoint_transfer.py:346-398 | the destination and the outcome are those of the specification the next lemmas are about |
| SeriesTransfer.InstallRefuses | scripts/external_validation_checkpoint_transfer.py:346-373 | nothing is written unless bundle and destination verify and the bundle starts with the destination's checkpoints, and each refusal says which of them failed |
| SeriesTransfer.InstallJoins | scripts/external_validation_checkpoint_transfer.py:361-397 | a stale or forked bundle writes no slot; an extending one whose missing names lie above the names in use ends with the join of both chains or is interrupted at a prefix of it; any other extending one never succeeds, and breaks the destination as soon as it writes |
| SeriesTransfer.InstallCompletes | scripts/external_validation_checkpoint_transfer.py:374-387 | uninterrupted, an extending install succeeds exactly when the missing names lie above the names in use, and ends with the whole incoming series; re-installing adds nothing |
| SeriesTransfer.InstallResumes | scripts/external_validation_checkpoint_transfer.py:361-397 | stopping after any publication and running again gives the uninterrupted result |
| SeriesTransfer.JoinAllGrows | scripts/external_validation_checkpoint_transfer.py:361-397 | any sequence of installs only extends the chain and ends at the old chain or at a bundle |
| SeriesTransfer.JoinAllIsUpperBound | scripts/external_validation_checkpoint_transfer.py:361-397 | without a fork the final chain contains every bundle |
| SeriesTransfer.JoinAllIgnoresOrder | scripts/external_validation_checkpoint_transfer.py:361-397 | order and repetition of bundles of one history do not change the final chain |
| SeriesTransfer.InstallAllJoins | scripts/external_validation_checkpoint_transfer.py:346-398 | installing a list of transfers under one naming acts on the destination as the iterated join, or two of the chains at hand collide |
| SeriesTransfer.InstallAllNumbered | scripts/external_validation_checkpoint_transfer.py:346-398 | among directories named 1..n installing a list of transfers acts as the iterated join, or two of the chains at hand collide |
| TextLines.TerminatedIsInjective | scripts/offline_deployment_history.py:148 | newline-terminated lines have one reading |
| TextLines.SplitAppend | scripts/offline_deployment_audit.py:228-239 | a record written after a terminated line becomes a line of its own |
| TextLines.SplitGlue | scripts/offline_deployment_audit.py:228-239 | written after an unterminated line it is glued to that line |
| TreeAttestation.AttestTree | scripts/offline_deployment_history.py:113-150 | the loop computes the digest of the sorted record stream, the entry count and the byte total of everything but the seal |
| TreeAttestation.AttestationBindsTree | scripts/offline_deployment_history.py:113-150 | equal attestations mean equal path, type, mode, owner, link target, size and content of every entry but the seal, or the two record streams or two files at one path collide; and the converse |
| HistoryKeyring.CurrentResolves | scripts/offline_deployment_keyring.py:239-263 | in a readable keyring the current key resolves from its own id and fingerprint, as current |
| HistoryKeyring.RotatedResolves | scripts/offline_deployment_keyring.py:286-312 | rotation keeps every old record's key resolvable, installs exactly one new current key, and the old one is no longer current |
| HistoryKeyring.KeyringFile.WriteAtomic | scripts/offline_deployment_keyring.py:87-109 | the old or the new content, never another; after the rename the new content stays even if the call fails |
| HistoryKeyring.KeyringFile.EnsureKey | scripts/offline_deployment_keyring.py:202-241 | a missing keyring is created in place; a key is returned exactly when the keyring reads or all three creating steps succeed, and is the current one; a failed write leaves an unreadable file |
| HistoryKeyring.KeyringFile.UpdateCheckpoint | scripts/offline_deployment_keyring.py:331-343 | the checkpoint never moves backwards and never changes at one sequence; which failing steps leave the old one is exact |
| HistoryKeyring.KeyringFile.PutBack | scripts/offline_deployment_history.py:550-554 | undo writes the previous bytes or unlinks, exactly when none of its steps fails, or leaves the file alone |
| HistoryKeyring.KeyringFile.RestoreRaw | scripts/offline_deployment_history.py:477-484 | the undo of a restore puts the previous bytes back exactly when all its steps succeed, and otherwise changes nothing |
| HistoryKeyring.KeyringFile.Rotate | scripts/offline_deployment_keyring.py:286-312 | exactly which failing steps leave the rotated keyring in place although the call fails |
| AuditLog.VerifyLines | scripts/offline_deployment_audit.py:64-107 | passes exactly when the bytes split into a contiguous, linked, authenticated run within the limits that meets the keyring checkpoint, and returns its length and head |
| AuditLog.CheckpointPinsLog | scripts/offline_deployment_audit.py:96-100 | a log passes the checkpoint of an authentic log only by extending it: truncated, edited and forked logs are rejected, or collide |
| AuditLog.WitnessPinsLog | scripts/offline_deployment_audit.py:162-189 | a log meets an external witness exactly when it extends the witnessed log, or the two logs collide |
| AuditLog.AppendedLogVerifies | scripts/offline_deployment_audit.py:233-244 | the written log verifies - before the checkpoint moves and after - exactly when the log was below its event limit and its last line was terminated |
| AuditLog.OverrunNeverPasses | scripts/offline_deployment_audit.py:64-74 | otherwise it never verifies again, under any keyring |
| AuditLog.OnlyOwnRecordPasses | scripts/offline_deployment_audit.py:75-96 | verification takes at a position exactly the records that append makes there with some key of the keyring, current or retired |
| AuditLog.RotatedLogHolds | scripts/offline_deployment_keyring.py:286-312 | a log that verified still does under the rotated keyring, against the same checkpoint |
| AuditLog.AuditTrail.WriteAll | scripts/offline_deployment_audit.py:234-237 | the write loop appends a prefix of the record, all of it on success, however the system splits the writes; where it stops is decided by the splits and the failing writes |
| AuditLog.AuditTrail.Prepare | scripts/offline_deployment_audit.py:192-232 | nothing is written by the checks, and which of them refuses is decided by keyring, log, limits and failing steps |
| AuditLog.AuditTrail.Settle | scripts/offline_deployment_audit.py:238-255 | after the record is on disk every outcome leaves a verifying log with the old or the moved checkpoint, or reports that it does not verify; which it is follows from the room in the log and the failing steps |
| AuditLog.AuditTrail.Append | scripts/offline_deployment_audit.py:192-255 | n verified events become n + 1 with checkpoint (n + 1, new head); a refusal leaves the bytes alone; an interrupted write leaves a prefix of the record; the outcome and the operations used are exactly those computed beforehand from log, keyring and failing steps |
| AuditLog.ReliableAppend | scripts/offline_deployment_audit.py:192-255 | when nothing fails, the limits decide whether an append is refused, and the room in the log whether it succeeds |
| Activation.ParentDirectory.UniqueSibling | scripts/offline_deployment_activation.py:129-134 | the first free of 32 drawn names is taken, or all were taken |
| Activation.ParentDirectory.ShelveTarget | scripts/offline_deployment_activation.py:202-206 | how far the first three operations get, for every pattern of failures, and that a failed chmod leaves the mode as it was |
| Activation.ParentDirectory.SwapIn | scripts/offline_deployment_activation.py:207-211 | the staged tree is at the target, as staged or as the verifier left it, for every pattern of failures; success means the verifier passed |
| Activation.ParentDirectory.BringBack | scripts/offline_deployment_activation.py:215-222 | the handler's first moves conserve all trees and give the previous one back exactly when their operations succeed and a name can be drawn |
| Activation.ParentDirectory.Undo | scripts/offline_deployment_activation.py:213-239 | a completed rollback restores the whole directory from any stage of the try block, and it completes exactly when the operations it needs from that stage on succeed; other names are never touched |
| Activation.ParentDirectory.Activate | scripts/offline_deployment_activation.py:167-239 | success publishes the verified tree and retains the old one, rejection touches nothing, and in every recorded state the old deployment is at the target or under the spare name; the stage reached, success, and whether a rollback completes are exactly those computed from trees, names and failing operations; a rollback gives the target back exactly as it was if and only if it was private already, all 32 drawn names are taken, or one of the first two operations fails |
| Activation.ParentDirectory.LaterSuccessUndoes | scripts/offline_deployment_activation.py:213-239 | whatever stopped the try block, the rollback completes if no operation after that one fails and no random name for the failed tree is taken |
| Activation.ParentDirectory.ReliableTry | scripts/offline_deployment_activation.py:200-212 | when nothing fails the verifier alone decides |
| Activation.ParentDirectory.RollbackActivated | scripts/offline_deployment_activation.py:146-164 | the activated tree is gone and the previous one is back, never absent in between, exactly when the operations it needs succeed |
| Activation.ParentDirectory.ActivateThenRollBack | scripts/offline_deployment_bootstrap.py:974-977 | undoing a successful activation leaves what a failed activation leaves, under an exact condition on the operations after it |
| Activation.RollbackRestoresTarget | scripts/offline_deployment_activation.py:202-222 | from each stage a completed rollback gives back the same target but for its mode, and the mode too exactly when it was never changed or already private; every other name but staging is untouched |
| Activation.RollbackMakesRootPrivate | scripts/offline_deployment_activation.py:205 | a 0755 target that does not come back as it was |
| Activation.ActivationConserves | scripts/offline_deployment_activation.py:167-239 | whatever the outcome, failed rollbacks included, no deployment is lost, doubled or changed but for the old root's mode and the verifier's edits |
| RetainedDeployments.SealThenVerify | scripts/offline_deployment_history.py:153-220 | a tree that is sealed and then verified unchanged passes exactly when its seal is below the size limit of the verifier, which the sealer does not check and real seals never reach |
| RetainedDeployments.SealBindsTree | scripts/offline_deployment_history.py:184-220 | with the seal file unchanged a tree verifies exactly when its root is private and every other entry is unchanged, or the two trees exhibit a collision |
| RetainedDeployments.OnlyOwnSealVerifies | scripts/offline_deployment_history.py:184-220 | a tree verifies exactly under a seal that the sealer makes for this very tree with the current key at some time, in a safe seal file |
| RetainedDeployments.ForeignTreeNeverVerifies | scripts/offline_deployment_history.py:302-303 | a tree installed under another target's name neither verifies nor gets a seal |
| RetainedDeployments.RetiredSealRejected | scripts/offline_deployment_history.py:200-205 | a seal of the rotated-out key no longer verifies |
| RetainedDeployments.VerifiesIgnoresCheckpoint | scripts/offline_deployment_history.py:184-220 | moving the audit checkpoint changes no verdict on a tree |
| RetainedDeployments.SealRetained | scripts/offline_deployment_history.py:153-181 | success means exactly a new seal for the tree's identity and content under the current key; whether the call succeeds, leaves the tree alone or leaves one temporary seal in it is decided by tree, keyring and failing operations beforehand |
| RetainedDeployments.PlaceSeal | scripts/offline_deployment_history.py:174-179 | exactly which of the three writes failing, or a directory at the seal path, leaves the tree untouched, with an abandoned temporary seal, or sealed |
| RetainedDeployments.StrayBreaksSeal | scripts/offline_deployment_history.py:116-122 | an abandoned temporary seal makes an intact deployment stop verifying, unless the two record streams collide |
| RetainedDeployments.InventoryFacts | scripts/offline_deployment_history.py:311-329 | the inventory lists exactly the verifying siblings, each at its rank |
| RetainedDeployments.InventoryDescends | scripts/offline_deployment_history.py:322-325 | along the inventory the installation times of the trees never increase, and at one time the installation ids never increase |
| RetainedDeployments.PruneKeepsNewest | scripts/offline_deployment_history.py:417-437 | pruning leaves the first of the inventory, in the same order, and touches no other sibling |
| RetainedDeployments.KeptIsNewer | scripts/offline_deployment_history.py:414-437 | of two verifying trees one that pruning keeps was installed no earlier than one that it removes; at one time its id is not the smaller, and for one id its name sorts first |
| RetainedDeployments.KeptCount | scripts/offline_deployment_history.py:417-419 | pruning leaves `keep` verifying siblings, or all if there are fewer |
| RetainedDeployments.PruneTwice | scripts/offline_deployment_history.py:414-437 | pruning to k1 and then to k2 is pruning once to the smaller |
| RetainedDeployments.Prune | scripts/offline_deployment_history.py:414-463 | success removes exactly the plan, failure a prefix of it; the start, the first failing removal, the recorded failure or completion and the outcome are exactly those that inventory, log and failing operations decide |
| RetainedDeployments.RemovePlanned | scripts/offline_deployment_history.py:432-437 | the removal loop takes a prefix of the plan, verifying each deployment once more, and if all verify stops exactly at the first removal that fails |
| RetainedDeployments.NoneFailsBefore | scripts/offline_deployment_history.py:432-437 | every removal before that place succeeds |
| RetainedDeployments.RecordEvent | scripts/offline_deployment_audit.py:192-255 | one event grows the log by one record of that action, moves no more of the keyring than its checkpoint, and succeeds exactly as the steps of the append decide |
| KeyLifecycle.RestoredSealVerifies | scripts/offline_deployment_history.py:555-558 | a resealed tree that gets its old seal content back verifies as before |
| KeyLifecycle.ResealAll | scripts/offline_deployment_history.py:542-544 | the loop reseals the managed deployments up to the first whose three writes do not all succeed, leaves a temporary seal in that one exactly when its first write did, and says which operation comes next |
| KeyLifecycle.LostAtFirstFault | scripts/offline_deployment_history.py:542-544 | the deployment a rotation loses, computed from the failing operations alone, is the one at the first faulty seal |
| KeyLifecycle.PutSealsBack | scripts/offline_deployment_history.py:555-558 | the undo loop gives every saved seal back exactly when all of its writes succeed, and touches no other sibling and no other file |
| KeyLifecycle.ManagedSiblingsFacts | scripts/offline_deployment_history.py:531-532 | the resealed siblings are exactly the verifying ones, each once |
| KeyLifecycle.PutBackVerifies | scripts/offline_deployment_history.py:550-558 | after the undo each deployment verifies with the old keyring again, except one with an abandoned temporary seal, which never does unless its record stream collides with the old one |
| KeyLifecycle.RotationVerifies | scripts/offline_deployment_history.py:541-549 | after resealing, each previously managed deployment verifies under the new key exactly when its new seal is below the size limit |
| KeyLifecycle.UndoneFacts | scripts/offline_deployment_history.py:550-558 | wherever resealing stopped, the completed undo leaves every listed deployment with its old seal and verifying, but for the one that holds a temporary seal, and every other untouched |
| KeyLifecycle.ResealAndRecord | scripts/offline_deployment_history.py:541-549 | the guarded block: how far it got, which deployment it lost, and the log that old-key and new-key events share, all exactly as its steps decide |
| KeyLifecycle.FinishRotation | scripts/offline_deployment_history.py:541-564 | all deployments resealed and logged, or keyring, seals and log as before, or a failed undo - decided by the steps of the guarded block and then those of the undo |
| KeyLifecycle.RotateKey | scripts/offline_deployment_history.py:527-570 | all-or-nothing rotation; for every pattern of failing operations which of the five outcomes it has: refused, rotated without seals, done, undone exactly when every write of the undo succeeds, or a failed undo; a failed undo touches no other sibling, changes no file but seals, loses no audit event and leaves the previous or the rotated keys |
| KeyLifecycle.FailedUndoMetFault | scripts/offline_deployment_history.py:550-564 | an undo that fails met a failing operation after the one that stopped the guarded block |
| KeyLifecycle.OneSealFaultIsUndone | scripts/offline_deployment_history.py:541-564 | if one seal write fails and nothing else, the rotation stops there and its undo completes |
| KeyLifecycle.ReliableRotation | scripts/offline_deployment_history.py:541-564 | when nothing fails, rotation completes exactly if the log has room, and is undone otherwise |
| KeyLifecycle.VerifySealed | scripts/offline_deployment_history.py:499-502 | in any directory order the loop succeeds exactly when every sibling that looks sealed verifies |
| KeyLifecycle.LinkedSealBlocksRestore | scripts/offline_deployment_history.py:499-502 | a sibling whose seal is a link to a file stops every restore; one without a seal plays no part |
| KeyLifecycle.InstallKeyring | scripts/offline_deployment_history.py:494-513 | the guarded block of the restore succeeds exactly if the backup is written, all seals and the log verify under it, and the steps of the audit event succeed |
| KeyLifecycle.RestoreKeyring | scripts/offline_deployment_history.py:487-524 | success: every sealed deployment and every old event verify under the restored keys, checkpoint at the newest event; completed undo: keyring and log as before; an unreadable backup changes nothing; which of them it is, is decided by the steps of the guarded block and of the undo |
| KeyLifecycle.ReliableRestore | scripts/offline_deployment_history.py:487-524 | when nothing fails, the restore succeeds exactly if all seals and the log verify under the backup and the log has room |
| RetainedRollback.SelectsTheOnlyMatch | scripts/offline_deployment_history.py:349-360 | selection finds a sibling exactly when it is the only managed deployment with that installation id |
| RetainedRollback.SwapBack | scripts/offline_deployment_history.py:601-605 | the two undo renames conserve all trees and exchange them back exactly if both succeed |
| RetainedRollback.SealOrSwapBack | scripts/offline_deployment_history.py:598-605 | the displaced tree is sealed in place, or the trees are exchanged back with at most a temporary seal added; tree, keyring and failing operations decide beforehand which, and whether the exchange back succeeds |
| RetainedRollback.SwapAndSeal | scripts/offline_deployment_history.py:590-605 | outcome by outcome the exact directory; which outcome it is - activation, seal, exchange back - is computed beforehand from trees, keyring and failing operations |
| RetainedRollback.FaultlessSwap | scripts/offline_deployment_history.py:590-605 | when nothing fails and no drawn name is taken, the verifier and the displaced tree decide |
| RetainedRollback.SealingConserves | scripts/offline_deployment_history.py:598-605 | sealing the displaced deployment and any renames after it lose, double or change no deployment beyond its seal |
| RetainedRollback.SealedVerifiesAfterwards | scripts/offline_deployment_history.py:606-624 | the displaced deployment is judged as when it was sealed, exactly by the size of its seal, while further events move the checkpoint |
| RetainedRollback.SwapAndRecord | scripts/offline_deployment_history.py:590-624 | the swap's result and its audit event: completed after an exchange, failed whenever the rollback raises; a failure to record does not undo the swap |
| RetainedRollback.RollBack | scripts/offline_deployment_history.py:572-632 | success: candidate at the target, displaced deployment retained under a new seal of the current key, both events logged; failed activation or seal with completed undo: the original back, with a temporary seal in it exactly under a condition on the displaced tree and the failing operations; every outcome conserves the deployments, and which one it is and what is recorded follows from log, keyring, trees and failing operations |
| PayloadManifest.LoadManifest | scripts/external_validation_exchange.py:457-479 | no issue is counted exactly when every line reads and no path repeats, and then the map is what the lines say |
| PayloadManifest.ListingMeans | scripts/external_validation_exchange.py:457-479 | reading fails exactly on an ill-formed line, unsafe path or repetition; otherwise it assigns exactly the listed digests |
| PayloadManifest.SafeBelow | scripts/external_validation_exchange.py:205-213 | a safe path stays safe and printable below a directory |
| PayloadManifest.ManifestRoundTrip | scripts/external_validation_exchange.py:437-479 | printing the manifest of a file set and reading it back gives every digest exactly when every name is safe and fits on one line |
| ResponseExchange.ActualLayoutIsLawful | scripts/external_validation_exchange.py:59-64 | the names the program gives to directories and files meet what the theorems assume of them: no separators, distinct, and fit for a manifest line |
| ResponseExchange.EvidenceNamesListable | scripts/verify_external_validation_evidence.py:104-126 | names in evidence that passes its own verifier can all be listed |
| ResponseExchange.PayloadParts | scripts/external_validation_exchange.py:678-687 | request, evidence and key files never share a payload path |
| ResponseExchange.CreatedRequestPasses | scripts/external_validation_exchange.py:297-434 | a created request passes for exactly the key that made it, the source tree it names and the moments of its window |
| ResponseExchange.PassingRequestWasCreated | scripts/external_validation_exchange.py:354-434 | a request that passes and is printed as creation prints it is what its requester creates from some challenge for the operator it names |
| ResponseExchange.SignatureFixesRequest | scripts/external_validation_exchange.py:393-398 | two passing requests have one signature exactly when they are one request under one key |
| ResponseExchange.SignedResponseVerifies | scripts/external_validation_exchange.py:482-818 | every bundle that signing returns passes verification with the pinned keys and the unchanged source, at any later time, with the evidence's own verdict exactly when the run was attested before and after |
| ResponseExchange.PassesExactlyWhenSigned | scripts/external_validation_exchange.py:609-832 | with an attested source tree verification passes exactly for bundles whose statement is the one that signing makes for their contents, under the operator's signature |
| ResponseExchange.StatementFixesPayload | scripts/external_validation_exchange.py:675-818 | two passing bundles with one signed statement have identical request, evidence and operator-key files, or their manifests collide, or two payload files under one path do |
| ResponseExchange.SignatureFixesResponse | scripts/external_validation_exchange.py:706-730 | two passing bundles with one signature have one statement and one operator key, hence the same request, evidence and key files up to the same collisions |
| ResponseExchange.AlteredResponseFails | scripts/external_validation_exchange.py:706-730 | a passing bundle no longer passes, against any request, keys and source, once its statement alone or its signature alone is replaced |
| ResponseExchange.EvidenceFitsOneRequest | scripts/external_validation_exchange.py:125-165 | one aggregate report cannot pass under two different requests, and the embedded request is the retained one, or two request files of one name collide |
| ResponseExchange.EvidenceWithinWindow | scripts/external_validation_exchange.py:141-165 | in a passing response the evidence was collected for this request, inside its window and before the response was signed, at the times the statement names |
| ResponseExchange.EvidenceManifestFixesFiles | scripts/verify_external_validation_evidence.py:104-126 | two evidence directories that pass with one manifest are equal, or two of their files under one name collide |
| SourceSnapshot.ReadPublicManifest | scripts/external_validation_source_attestation.py:46-64 | blank lines are skipped; one bad line or an empty list is an error |
| SourceSnapshot.PublicManifestPrintable | scripts/external_validation_source_attestation.py:46-64 | every listed path can be printed into a manifest again |
| SourceSnapshot.TreeTextIsInjective | scripts/external_validation_source_attestation.py:116-123 | the canonical tree text determines paths and digests |
| SourceSnapshot.AttestSource | scripts/external_validation_source_attestation.py:76-131 | a passing report is about content actually read, file by file; a tree that stands still passes exactly when every listed file has its digest and the version reads |
| SourceSnapshot.HashEntries | scripts/external_validation_source_attestation.py:91-107 | the hashing loop finds every mismatch and reports a match only for content it saw |
| SourceSnapshot.IdentityFixesEntries | scripts/external_validation_source_attestation.py:117-123 | two attestations with one identity list the same files and saw the same bytes in each, except where the two contents seen collide, or their tree texts collide |
| SourceSnapshot.Snapshot.CopyVerified | scripts/external_validation_source_attestation.py:141-175 | on return every path attested before holds exactly the attested bytes, however the source changed meanwhile, except where those bytes and the copied file collide, or the two tree texts do; success, and whether a failure leaves anything, are exactly what the reads and the failing operations decide |
| SourceSnapshot.Snapshot.ReliableTake | scripts/external_validation_source_attestation.py:156-175 | when nothing fails, a source that stands still is copied |
| SourceSnapshot.CopyableMirrors | scripts/external_validation_source_attestation.py:159-168 | the sorted copy order meets every listed file exactly once |
| SourceSnapshot.MirrorPasses | scripts/external_validation_source_attestation.py:168-172 | a faithful copy that includes the version file attests with the source's identity |
| RuntimeSnapshot.StreamDigest | scripts/offline_deployment_bootstrap.py:222-233 | chunked reading gives size and digest of the whole content, or stops above the limit |
| RuntimeSnapshot.InspectSnapshot | scripts/offline_deployment_bootstrap.py:271-302 | inspection passes exactly when every listed member has its size and digest and the sizes add up within the limit |
| RuntimeSnapshot.RestoredMeans | scripts/offline_deployment_bootstrap.py:305-350 | every manifest path is written once with its size and digest, nothing is overwritten, nothing else appears, and the bytes stay within the limit |
| RuntimeSnapshot.InspectedRestores | scripts/offline_deployment_bootstrap.py:305-350 | an inspected archive that does not change restores completely if and only if its paths conflict neither with each other nor with what is there and every mode parses |
| RuntimeSnapshot.RepeatedPathNeverRestores | scripts/offline_deployment_bootstrap.py:274-315 | a manifest that lists one path twice with the same file passes inspection and restores into no environment |
| RuntimeSnapshot.SitePackages.WriteChunk | scripts/offline_deployment_bootstrap.py:331-338 | its precondition makes every single write stay within both limits |
| RuntimeSnapshot.SitePackages.WriteMember | scripts/offline_deployment_bootstrap.py:327-338 | the inner loop writes exactly the streamed content within the declared size, and stops exactly at a limit or a failing write |
| RuntimeSnapshot.SitePackages.RestoreMember | scripts/offline_deployment_bootstrap.py:311-346 | a file is installed with declared size, digest and mode, or unlinked again, and left behind exactly if the unlink fails |
| RuntimeSnapshot.SitePackages.RestoreItems | scripts/offline_deployment_bootstrap.py:310-347 | the outer loop leaves a verified prefix of the manifest, and where it stops is exact |
| RuntimeSnapshot.SitePackages.RestoreSnapshot | scripts/offline_deployment_bootstrap.py:305-350 | success installs exactly the manifest; failure leaves a verified prefix; inspection, archive, paths and failing operations decide which, and whether a file is left |
| RuntimeSnapshot.SitePackages.NothingLeft | scripts/offline_deployment_bootstrap.py:311-346 | when nothing fails no file is left behind |
| RuntimeSnapshot.SitePackages.ReliableItems | scripts/offline_deployment_bootstrap.py:310-347 | when nothing fails every acceptable archive is restored completely |
| DependencyClosure.Applicable | scripts/dependency_lock.py:91-98 | the inner loop queues exactly the requirements whose marker applies for one of the extras |
| DependencyClosure.MarkerApplies | scripts/dependency_lock.py:56-65 | the marker is evaluated once per extra, or once for the empty text, and one success is enough |
| DependencyClosure.MoreExtrasAskForMore | scripts/dependency_lock.py:56-65 | asking a package for more extras never drops a requirement |
| DependencyClosure.Resolve | scripts/dependency_lock.py:76-99 | terminates on cycles and returns exactly the names of the least closed set of (package, extras) pairs; fails exactly when that set needs a package that is not installed |
| DependencyClosure.ClosureIsJustified | scripts/dependency_lock.py:76-99 | the closure holds exactly the direct requirements and those that a member asks for with an applying marker, each together with its extras |
| DependencyClosure.ResolutionIsUnique | scripts/dependency_lock.py:76-99 | there is at most one resolution, and none when a needed package is missing |

## Left out

- Cryptography, JSON, ZIP, tar and gzip formats: ideal signatures and tags, parsed
  records and chunk streams stand for them.
- Key files, their permissions, runner and platform fields, and file-system checks
  on hard links, devices and symbolic-link components of the paths themselves.
- Torn writes other than in the audit log, a new keyring and a source snapshot, and
  asynchronous interrupts between two statements.
- First-time initialisation of ledger and series directories by two processes at
  once, and a transfer archive that changes during one install.
- The separate single checkpoint file of the ledger; its pin and the check against
  it are those of the series entries.
- Empty directories inside request bundles, snapshots and environments: a tree is
  the set of its files there.
- Member-level checks of snapshot inspection (member count, member kinds, the file
  set comparison by archive name); the loop over the listed files is modelled.
- The checks of the evidence verifier on the reports themselves are one abstract
  predicate; its manifest check is modelled.
- Adoption of unsealed legacy deployments, keyring backup, the recovery journal,
  leases and the operation lock.
- The deployment sequence around activation, including that its last audit event
  comes after pruning but inside the rollback scope.
- A record or seal with an empty key id, which the lookup would match by
  fingerprint alone; no program writes one.
- SealThenVerify: its size condition is theoretical: an installation id has 32 digits and
  a file name at most 255 bytes, so a real seal has a few kilobytes; sizes are a parameter
  here and no bound on them is derived.
- RotateKey: assumes that random temporary names and the new key id are unused.
- EnsureKey: an interrupted creation always leaves an unreadable keyring; one that
  lacks nothing but its final newline would read.
- PassingRequestWasCreated: verification does not look at further fields, at how times
  are printed or at fractions of a second in the lifetime, and creation writes none, so
  the statement is about requests without them.
- PassesExactlyWhenSigned: it is claimed with an attested source tree; without one the
  verifier compares the statement's two source identities only with each other.
- RollBack: conservation assumes that the verifier edits the activated tree in place
  and does not remove it.
- CopyVerified: the claim is about a snapshot nobody else writes to.
- EveryStateSound: for the series it is claimed of runs whose opened bundles are
  named 1..n, which `BundleNamesDecide` shows to be needed; for the ledger of all runs
  (`EveryLedgerSound`). It claims safety, not progress; a verification may fail while
  another process's temporary file is in the directory.
