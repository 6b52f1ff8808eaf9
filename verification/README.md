# Eternix testnet: a verified model

This project models the hard parts of the Eternix testnet repository in Dafny and proves what they promise.

| component | files |
|---|---|
| Leader selection | `LeaderSelection.dfy`, `Counting.dfy` |
| Codecs: transactions, headers, blocks, signed envelopes | `NativeTransaction.dfy`, `BlockCommitment.dfy`, `NativeBlock.dfy`, `BlockAuthentication.dfy` |
| Transfer executor and producer pool | `NativeTransfer.dfy`, `ProducerPool.dfy` |
| Authenticated archive: records, durable file, reload audit, owner, runs of several owners, exact commits, real rules, reopened files | `Archive.dfy`, `ArchiveStorage.dfy`, `ArchiveAudit.dfy`, `ArchiveOwner.dfy`, `ArchiveRuns.dfy`, `ArchiveCommits.dfy`, `ArchiveRules.dfy`, `ArchiveReopening.dfy` |
| Testnet worker and its exact answers | `Worker.dfy`, `WorkerNode.dfy`, `WorkerAnswers.dfy` |
| Controller: durable site, invocations and their runs, the session object, the real workers behind it | `Controller.dfy`, `ControllerRuns.dfy`, `ControllerSession.dfy`, `WorkerProtocol.dfy`, `WorkerProposals.dfy` |
| Slot engine, its economy and the exact effect of each operation | `SlotEconomy.dfy`, `SlotTransactions.dfy`, `SlotEngine.dfy`, `SlotEffects.dfy`, `SlotRuns.dfy` |
| Shared | `Base.dfy`, `Sums.dfy` |

How the source's parts appear here:

- Machine integers are bounded subset types, or naturals with explicit saturation and wrap-around; checked,
  saturating and unchecked operations are written out.
- Hashing, public-key recovery and signing are arbitrary fixed functions of their inputs (constants without a
  value). Freedom from collisions is never assumed: where it matters, a lemma says that a check can only fire on
  two different inputs with the same hash.
- SQLite is one durable value with atomic transactions. BEGIN, writes, ROLLBACK and reload may fail, and COMMIT may
  report an error after landing either the old or the new state (`Weather`, `CommitFate`).
- A crash of the controller may happen at every durable action, leaving the old state, the new state or a file
  cut short (`Fate`). Randomness, worker replies, proposals and persistence outcomes are parameters.
- Objects with mutable fields are classes (`LiveState`, `Pool`, `Owner`, `Node`, `Session`, `Engine`) whose methods
  are proved against functions on states; the theorems about whole runs are about those functions.
- Rules and operations that a component receives from another are passed as function values with stated laws
  (`Lawful`, `LawfulSetup`, `LawfulProtocol`), and the real ones are proved to satisfy the laws (`RulesAreLawful`,
  `SetupIsLawful`, `ProtocolIsLawful`).

For each operation there are two kinds of result: what it keeps, over every run; and exactly when it succeeds and
what it then does (the members whose names end in `Exactly` or `Fields`), stated without the operation's own body.

What the proofs brought to light:

- Replay does not repair every interruption. After any run, one uninterrupted replay brings both archives to the
  selected corpus exactly if the corpus is not empty and no file was cut short (`ReplayAfterAnyRun`). A site with a
  file cut short is never usable again (`TornForever`); with any workers, `StuckSometimes` gives a run that ends
  there with a selected request that no replay can finish.
- The slot engine counts fees paid in other tokens as burned ETX, so its books drift by exactly those fees
  (`SupplyDrift`); they are constant if all fees are in ETX (`SupplyIsConstant`). `SupplyDriftsSometimes` gives a
  fresh node, one submission and one slot after which they are off by that fee.
- The branches of the slot engine that undo a debit are unreachable, except when value plus fee overflows 128 bits
  and the payer holds exactly 2^128 - 1 (`GivesUpExactly`, with an input in `GivesUpSometimes`).
- Ticket identifiers can repeat: over any local run they stay unique exactly if the highest one at its start plus
  the number of tickets bought stays below 2^64 (`RunIsUniqueExactly`); `MintRepeatsSometimes` gives a list whose
  next ticket repeats an identifier.
- A miss is only ever recorded by a node that is not the leader, so in local runs nobody is punished for one.
- After a successful execution on a reachable archive, the duplicate-transaction checks and the unique index on
  envelope identifiers can only fire on a collision with an archived or earlier transaction or envelope
  (`DuplicateMeansCollision`, `ViolationIsCollision`), and the pool's test for archived identifiers is implied by its
  nonce test unless an archived transaction collides with the entry (`NonceTestSuffices`).

## Model

| member | source | states |
|---|---|---|
| LeaderSelection.SampleUniformBelow | src/leader_selection.rs:22-42 | the retry loop returns the first accepted raw draw reduced modulo the bound, and gives up only after all 2^64 retries |
| LeaderSelection.ThresholdIsRemainder | src/leader_selection.rs:22-42 | the rejection threshold is exactly 2^64 mod n |
| LeaderSelection.AcceptedDrawsAreUniform | src/leader_selection.rs:22-42 | for any set of residues, the accepted raw values that reduce into it number floor(2^64/n) times its size |
| LeaderSelection.EachResidueEquallyLikely | src/leader_selection.rs:22-42 | every residue has exactly floor(2^64/n) accepted raw values |
| LeaderSelection.FindBucketForOffset | src/leader_selection.rs:44-53 | the subtracting scan finds the bucket whose cumulative range holds the offset |
| LeaderSelection.BucketsAreWeighted | src/leader_selection.rs:44-61 | each bucket is hit by exactly count times floor(2^64/n) accepted raw values |
| LeaderSelection.DrawBucket | src/leader_selection.rs:55-61 | summing the counts and drawing an offset gives the specified bucket, or none when nothing weighs |
| LeaderSelection.ScanForLeastTicket | src/leader_selection.rs:71-93 | the scan returns the least ticket by score, then identifier |
| LeaderSelection.TallyBuckets | src/leader_selection.rs:95-127 | counting skips buckets 0 and 1 and reports an overflowing counter |
| LeaderSelection.SelectLeaderTicket | src/leader_selection.rs:95-127 | the whole selection equals its specification |
| LeaderSelection.LeaderIsLeastOfDrawnBucket | src/leader_selection.rs:71-127 | with distinct identifiers the leader is the least (score, id) of the drawn bucket |
| LeaderSelection.ActiveTicketGivesLeader | src/leader_selection.rs:95-127 | some ticket with bucket at least 2 and an accepted draw give a leader |
| LeaderSelection.LeaderIgnoresTicketOrder | src/leader_selection.rs:95-127 | the leader is the same for every permutation of the eligible tickets |
| NativeTransaction.DecodeEncodeSigned | src/native_transaction.rs:353-368 | decoding undoes encoding of every valid signed transaction (the layout itself: PayloadFields) |
| NativeTransaction.EncodeDecodeSigned | src/native_transaction.rs:252-368 | every accepted byte string is the one encoding of what it decodes to |
| BigEndian.FirstByteLeads | src/native_transaction.rs:232-249 | big-endian numbers: the first byte is the most significant one |
| NativeTransaction.PayloadFields | src/native_transaction.rs:232-249 | each of the twelve fields sits at its own offset of the 134 bytes, numbers big-endian |
| NativeTransaction.SignedFields | src/native_transaction.rs:353-359 | a signed transaction is the payload followed by the 65 signature bytes |
| NativeTransaction.DecodedFields | src/native_transaction.rs:252-271 | every field of a decoded transaction is read from its own offset of the accepted bytes |
| NativeTransaction.AuthenticateExactly | src/native_transaction.rs:420-447 | bytes authenticate if and only if length, version, kind, rules, chain, network, gas, nonce and token are right and the canonical signature recovers to the sender |
| NativeTransaction.AuthenticationIsFaithful | src/native_transaction.rs:420-447 | an authenticated transaction has the identifier, sender and nonce read directly from its bytes, and the executor's profile |
| NativeTransfer.TransferConserves | src/native_transfer.rs:397-501 | one transfer lowers the total balance by exactly the fee |
| NativeTransfer.TransferExactly | src/native_transfer.rs:397-501 | a transfer succeeds if and only if profile, nonce, maturity, combined funds and room are right |
| NativeTransfer.TransferRefusals | src/native_transfer.rs:397-473 | which of nonce, maturity and funds refuses: each exactly when the ones before it pass |
| NativeTransfer.TransferMoves | src/native_transfer.rs:437-495 | for every address: new balance plus what it sent, fee included, equals old balance plus what it received; accounts appear exactly by sending or receiving a value |
| NativeTransfer.ExecuteMoves | src/native_transfer.rs:331-382 | for every address, a body moves exactly the sums of what its entries send and receive |
| NativeTransfer.AuthenticationFailsFirst | src/native_transfer.rs:331-382 | the first entry that does not authenticate is reported whatever the state, before anything executes |
| NativeTransfer.ExecutionFailsFirst | src/native_transfer.rs:331-382 | if all entries authenticate, the first refused transfer is reported with its refusal |
| NativeTransfer.ExecuteLaws | src/native_transfer.rs:331-382 | balances plus burns are constant, each entry costs 1,000 gas and 10,000 burn, identifiers come in order |
| NativeTransfer.ExecuteNonces | src/native_transfer.rs:331-501 | each sender's nonce rises by its number of entries, self-transfers included, and no account disappears |
| NativeTransfer.BystandersUntouched | src/native_transfer.rs:397-501 | accounts that neither send nor receive keep their record |
| NativeTransfer.NoncesConsumed | src/native_transfer.rs:397-501 | every executed nonce lies between the sender's old and new nonce |
| NativeTransfer.BodyNoncesDistinct | src/native_transfer.rs:331-382 | no two entries of a successful body share sender and nonce |
| NativeTransfer.StageBody | src/native_transfer.rs:331-382 | authenticates all entries, then executes all, reporting the first failing index and leaving the base alone |
| NativeTransfer.LiveState.Commit | src/native_transfer.rs:308-328 | installs the candidate only on an unchanged base after a successful store |
| NativeTransfer.StagedBodyIsSpent | src/native_transfer.rs:331-501 | staging the same non-empty body again fails at its first entry with a used nonce |
| ProducerPool.Pool.Submit | examples/testnet_support/producer.rs:33-81 | the answer is the specified one for every input: unauthenticated, archived, stale, repeated, key taken, pool full or newly admitted; only admission changes the pool, inserting exactly the submitted entry where it keeps the order |
| ProducerPool.TakenAtItsPlace | examples/testnet_support/producer.rs:33-81 | in a sorted pool a sender and nonce are taken if and only if the first entry not below them has them |
| ProducerPool.Pool.Select | examples/testnet_support/producer.rs:83-130 | the loop over reservations and hold counters computes the specified body and counters |
| ProducerPool.Pool.Reconcile | examples/testnet_support/producer.rs:132-139 | keeps exactly the entries that are neither archived nor stale |
| ProducerPool.RetainedMembers | examples/testnet_support/producer.rs:132-139 | an entry is retained if and only if it is not archived and its nonce is unused |
| ProducerPool.SelectionExecutes | examples/testnet_support/producer.rs:83-130 | the executor accepts the selected body if and only if the gas and burn totals have room for it |
| ProducerPool.SelectionIsMaximal | examples/testnet_support/producer.rs:83-130 | with room left in the body, no unselected entry could still be selected |
| ProducerPool.ReservesExactly | examples/testnet_support/producer.rs:83-130 | every sender's reservation is its balance less the debits of its selected entries, and its nonce after them |
| ProducerPool.LeftOutExactly | examples/testnet_support/producer.rs:83-130 | with room left in the body an entry is left out only for its nonce, its maturity, or a cost above what the selected entries of its sender leave |
| ProducerPool.HeldAccounts | examples/testnet_support/producer.rs:83-130 | every entry is selected, in order and at most 16, or counted once as held back; capacity holds back only from a full body |
| BlockCommitment.DecodeEncodeHeader | src/block_commitment.rs:142-180 | header decoding undoes encoding |
| BlockCommitment.EncodeDecodeHeader | src/block_commitment.rs:142-180 | header encoding undoes decoding |
| BlockCommitment.HeaderFields | src/block_commitment.rs:142-158 | each of the twelve header fields sits at its own offset |
| BlockCommitment.KindCodes | src/block_commitment.rs:92-110 | the consensus code of each kind of block |
| BlockCommitment.DecodeEncodeProtocolData | src/block_commitment.rs:204-240 | protocol-data decoding undoes encoding |
| BlockCommitment.EncodeDecodeProtocolData | src/block_commitment.rs:204-240 | protocol-data encoding undoes decoding |
| BlockCommitment.ProtocolDataFields | src/block_commitment.rs:204-220 | version, burned fees, flag and missed proposer with its length sit at their own offsets |
| NativeBlock.WireBytes | src/native_block.rs:180-197 | the growing buffer ends as the specified wire bytes |
| NativeBlock.ReadEntries | src/native_block.rs:199-255 | the loop at a moving offset reads the specified entries or reports the first bad length |
| NativeBlock.DecodeEncodeBlock | src/native_block.rs:180-255 | decoding undoes encoding for every bounded block |
| NativeBlock.EncodeDecodeBlock | src/native_block.rs:180-255 | encoding undoes decoding, and a decoded block is bounded and carries no missed proposer |
| NativeBlock.BlockFields | src/native_block.rs:180-197 | version, claimed hash, header, proposer, protocol data, count and every entry sit at their own offsets |
| NativeBlock.PreflightExactly | src/native_block.rs:257-305 | the structural checks accept a block if and only if its header is the one its producer would write, its claimed hash is that header's, its proposer and ticket are real, it is within the gas cap and names no missed proposer |
| NativeBlock.OwnOutcomeMatches | src/native_block.rs:109-140 | a block built from its own outcome can only fail for its proposer or a zero ticket; it preflights and matches its outcome |
| NativeBlock.StagedOutcome | src/native_block.rs:257-323 | staging reports the raw identifiers and the exact gas and burn that a block must claim |
| BlockAuthentication.DecodeEncodeEnvelope | src/block_authentication.rs:223-270 | envelope decoding undoes encoding |
| BlockAuthentication.EncodeDecodeEnvelope | src/block_authentication.rs:223-270 | envelope encoding undoes decoding, and the inner block is bounded |
| BlockAuthentication.EnvelopeFields | src/block_authentication.rs:260-270 | versions, rules, network, length, inner block and signature sit at their own offsets |
| BlockAuthentication.AttributeExactly | src/block_authentication.rs:361-392 | an envelope is attributed if and only if network, structure, producer, claimed identifier and canonical signature over chain, network, profile and block hash are right for the bound key |
| BlockAuthentication.ReconstructionNeverFails | src/block_authentication.rs:361-392 | the noncanonical-reconstruction error is unreachable: attribution of bytes is attribution of the decoded value |
| BlockAuthentication.PreflightedFits | src/block_authentication.rs:207-258 | a structurally accepted block always fits the inner length bounds |
| Archive.IndexBody | src/authenticated_fixture.rs:225-245 | the indexing loop fills both transaction indexes or stops at the first clash |
| Archive.InsertRecord | src/authenticated_fixture.rs:225-255 | insertion adds the record with all index entries, or reports the duplicate |
| Archive.RecordsPersist | src/authenticated_fixture.rs:225-255 | along every history records are only appended |
| Archive.RecordOfEnvelope | src/authenticated_fixture.rs:1516-1690 | record i + 1 of a history is its i-th envelope with the outcome of its own execution |
| Archive.ArchivedNoncesAreSpent | src/authenticated_fixture.rs:225-255 | every archived sender and nonce is strictly below that sender's current nonce |
| Archive.IndexedIdsAreArchived | src/authenticated_fixture.rs:225-255 | every indexed identifier belongs to an archived transaction whose sender and nonce are indexed too |
| Archive.ClashMeansCollision | src/authenticated_fixture.rs:666-680 | after execution the nonce check never fires, and the identifier check only on a collision |
| ArchiveStorage.ReadBodyRows | src/authenticated_fixture.rs:1573-1599 | the loop over transaction rows accepts exactly contiguous, consistent positions |
| ArchiveStorage.AuditLoop | src/authenticated_fixture.rs:1516-1690 | the loop over stored revisions computes the specified audit and stops at the first error |
| ArchiveStorage.LoadTransaction | src/authenticated_fixture.rs:1516-1690 | the complete audit of a file |
| ArchiveStorage.StoredLoads | src/authenticated_fixture.rs:1516-1690 | every file that stands for a history is accepted and rebuilds exactly its snapshot, with the states at the marked revisions |
| ArchiveAudit.LoadedIsStored | src/authenticated_fixture.rs:1516-1690 | whatever the reload audit accepts stands for a history, the one whose snapshot it returns: every row is accounted for and no other row exists |
| ArchiveAudit.AuditIsExact | src/authenticated_fixture.rs:1516-1690 | the audit accepts a file if and only if the file stands for a history |
| ArchiveStorage.UpsertIsComplete | src/authenticated_fixture.rs:775-779 | upserting only changed accounts yields exactly the candidate, because no account disappears |
| ArchiveStorage.AppendStores | src/authenticated_fixture.rs:727-867 | the append transaction takes a file standing for h to one standing for h plus the new envelope |
| ArchiveStorage.CreationStores | src/authenticated_fixture.rs:985-1113 | a created file stands for the empty history |
| ArchiveOwner.Owner.Commit | src/authenticated_fixture.rs:690-867 | checks, transaction, installation and poisoning follow the state function for every storage behaviour |
| ArchiveOwner.Owner.RunTransaction | src/authenticated_fixture.rs:727-855 | the storage transaction and what its end leaves in the owner and in the file |
| ArchiveOwner.Owner.AbortWrites | src/authenticated_fixture.rs:868-889 | after a failed write the owner is ready only if a full reload confirms its snapshot |
| ArchiveOwner.Owner.BeginRecovery | src/authenticated_fixture.rs:895-922 | poisons, takes a fresh generation, audits and reconciles |
| ArchiveOwner.Owner.EndRecovery | src/authenticated_fixture.rs:922-935 | the second half of a recovery, whose answer RecoveryEndsExactly decides |
| ArchiveRuns.StagedExtends | src/authenticated_fixture.rs:606-665 | a candidate that passes the checks in memory extends the owner's snapshot by exactly its record |
| ArchiveRuns.CommitAppends | src/authenticated_fixture.rs:690-867 | whatever the storage answers, the history stays or grows by exactly the staged envelope; Aborted means unchanged, Committed means landed at its revision |
| ArchiveRuns.StoredCheckIsCurrency | src/authenticated_fixture.rs:727-773 | inside the transaction a candidate is refused as stale if and only if another owner has appended |
| ArchiveRuns.ViolationIsCollision | src/authenticated_fixture.rs:1209-1235 | the unique index on envelope identifiers can only reject a collision |
| ArchiveRuns.RecoveryVerdict | src/authenticated_fixture.rs:1470-1498 | present exactly if the attempt's envelope sits at its revision, absent exactly if the file is at the base, an error exactly otherwise |
| ArchiveRuns.BarrierExactly | src/authenticated_fixture.rs:1431-1468 | the barrier succeeds if and only if COMMIT lands, nobody has appended since the audit and the counter has room; what each case leaves in the file |
| ArchiveRuns.RecoveryEndsExactly | src/authenticated_fixture.rs:922-935 | the second half of a recovery completes if and only if the barrier does; then the owner is ready at the audited snapshot, otherwise it stays poisoned and reports uncertainty |
| ArchiveRuns.RecoversExactly | src/authenticated_fixture.rs:895-935 | an undisturbed recovery completes if and only if a generation is issued, the file opens, COMMIT lands, the barrier has room, and there is no attempt, or the file is at its base, or the attempt is in it |
| ArchiveRuns.RecoveryCompletes | src/authenticated_fixture.rs:895-935 | a completed recovery holds exactly the durable history and its report is true then; a failed one stays poisoned |
| ArchiveRuns.StepKeeps | src/authenticated_fixture.rs:690-935 | every step of every owner keeps the file standing for a history that only grows |
| ArchiveRuns.HistoryOnlyGrows | src/authenticated_fixture.rs:727-867 | in every run the file stays auditable and its records are only appended to |
| ArchiveRuns.CommittedForever | src/authenticated_fixture.rs:690-867 | a record reported Committed stays at its revision in every continuation |
| ArchiveRuns.RecoveryInvalidates | src/durable_fixture.rs:628-632 | nothing prepared or staged before a recovery passes that owner's base check after it |
| ArchiveRuns.AppendOnlyFromCreation | src/authenticated_fixture.rs:985-1137 | from creation on, with the creating owner live and any number of later ones, after any run the file is auditable and any further run only appends |
| ArchiveCommits.IndexesExactly | src/authenticated_fixture.rs:225-255 | in every history the four indexes name every record: hash, slot, and each transaction by identifier and by sender and nonce, with its position |
| ArchiveCommits.MemoryChecksExactly | src/authenticated_fixture.rs:606-665 | a candidate passes the checks in memory if and only if the owner is ready, the candidate was made on exactly its present base, and its block follows the tip under the grant for it |
| ArchiveCommits.KnownBlockIsNamed | src/authenticated_fixture.rs:618-665 | a block that is archived already is answered with its own tip and the identifiers of both envelopes |
| ArchiveCommits.StagesExactly | src/authenticated_fixture.rs:540-589 | a ready owner stages received bytes if and only if they authenticate to an envelope that extends its snapshot under the grant for it; the candidate is that extension |
| ArchiveCommits.SealsExactly | src/authenticated_fixture.rs:500-538 | a preparation is sealed if and only if it was made on the present base and the bytes authenticate to an envelope around its block, which still follows the tip under the grant for it |
| ArchiveCommits.ExtendsOrClashes | src/authenticated_fixture.rs:666-680 | above its tip a snapshot is extended if and only if the block executes and repeats no transaction |
| ArchiveCommits.ViolatesExactly | src/authenticated_fixture.rs:1209-1235 | the schema forbids an append above the history if and only if its envelope identifier is taken |
| ArchiveCommits.CommitExactly | src/authenticated_fixture.rs:690-889 | for every storage behaviour, how the commit of a passing candidate ends: outcome, owner and file, decided by currency, a free identifier and the failing step |
| ArchiveCommits.RefusedExactly | src/authenticated_fixture.rs:690-726 | a candidate that does not pass changes neither owner nor file |
| ArchiveRules.WireIsDecoded | src/authenticated_fixture.rs:1195-1208 | attribution of received bytes accepts exactly when the decoded envelope passes network, structure, binding and attribution |
| ArchiveRules.RunIsExecuted | src/authenticated_fixture.rs:550-570 | an executed block consumes fresh nonces, lowers none, drops no account and reports raw identifiers |
| ArchiveRules.RulesAreLawful | src/authenticated_fixture.rs:590-617 | the real attribution and execution satisfy every law the archive relies on |
| ArchiveRules.ArchiveIsAppendOnly | src/authenticated_fixture.rs:690-1137 | the real archive is append-only from creation on, the creating owner included, under every valid policy |
| ArchiveRules.FirstMisfit | src/authenticated_fixture.rs:447-453 | the first body entry of the wrong width |
| ArchiveRules.BuildNextOnlyFailsInBody | src/authenticated_fixture.rs:435-497 | preparing a block fails only in its body or for a degenerate proposer; staged identity, gas, burn and gas cap never reject |
| ArchiveRules.ReplicaAccepts | src/authenticated_fixture.rs:500-589 | a prepared and sealed block is accepted from its bytes by every ready owner with an equal snapshot, staging the same record and state |
| ArchiveRules.ReplicasStayEqual | src/authenticated_fixture.rs:690-867 | committing the same record on equal snapshots leaves equal snapshots |
| ArchiveRules.DuplicateMeansCollision | src/authenticated_fixture.rs:666-680 | the duplicate check after execution can only report a transaction whose identifier collides with an archived one or an earlier one of the body |
| ArchiveReopening.RealAuditIsExact | src/authenticated_fixture.rs:1516-1690 | the same under the real attribution and execution, for every valid policy |
| ArchiveReopening.AuditedFileConserves | src/authenticated_fixture.rs:1516-1690 | in every file the real audit accepts, balances plus burns equal those of the seeds |
| ArchiveReopening.AppendOnlyFromAnyFile | src/authenticated_fixture.rs:690-1137 | from any file the audit accepts, every run of any owners keeps it auditable and only appends |
| Worker.LoadApprovals | examples/testnet_support/profile.rs:313-359 | the loading loop accepts exactly short, contiguous documents that repeat no identity |
| Worker.AcceptedIsChained | examples/testnet_support/profile.rs:313-359 | accepted approvals form one chain of heights 1, 2, 3, ... on the anchor |
| Worker.CheckPrefix | examples/testnet_support/profile.rs:362-378 | the comparison loop accepts exactly an envelope-for-envelope prefix |
| Worker.ApplyKeeps | examples/testnet_support/mod.rs:173-259 | an apply keeps the worker's invariant and makes only permitted progress, whatever the storage answers |
| Worker.CommitPreparedKeeps | examples/testnet_support/mod.rs:269-329 | so does a commit of the owned preparation |
| Worker.RecoverKeeps | examples/testnet_support/mod.rs:338-365 | so does a recovery, which makes the worker available only under matching pins |
| Worker.ExtendKeeps | examples/testnet_support/profile.rs:303-311 | an extension preserves every loaded pin |
| Worker.PrepareKeeps | examples/testnet_support/producer.rs:199-237 | a preparation is made only at the approved head, from at most 16 selected transactions |
| Worker.ProposeKeeps | examples/testnet_support/producer.rs:244-276 | a fresh signature is for the height right above the approved head |
| Worker.WorkerStaysPinned | examples/testnet_support/mod.rs:330-446 | in every command sequence: available implies records are an envelope-for-envelope prefix of approvals, approvals never change, fresh signatures are above all approved steps |
| WorkerNode.SetupIsLawful | examples/testnet_support/mod.rs:101-116 | the real worker satisfies every law its proofs rely on |
| WorkerNode.StartupIsOk | examples/testnet_support/mod.rs:101-116 | a worker that starts on a file covered by its approvals is in order |
| WorkerNode.ApplyCommitsNext | examples/testnet_support/mod.rs:173-259 | an undisturbed apply of the next selected, valid envelope commits it and appends it to the durable history |
| WorkerAnswers.CalmCommitExactly | src/authenticated_fixture.rs:690-867 | without faults a current owner commits a passing candidate if and only if its identifier is free; the file then stands for the longer history |
| WorkerAnswers.ApplyCommitsExactly | examples/testnet_support/mod.rs:173-259 | an undisturbed apply commits if and only if the worker is available with nothing pending, the selection is the next one and names the envelope, and the envelope extends the archive under a free identifier |
| WorkerAnswers.KnownIsOld | examples/testnet_support/mod.rs:173-259 | an archived block, under any signature, is answered with its approved tip and changes nothing |
| WorkerAnswers.PreparedCommitsExactly | examples/testnet_support/mod.rs:269-329 | with its signed preparation selected next, the newest selection included, an undisturbed commit succeeds if and only if block hash and identifier are free; the history grows by that envelope and no preparation is left |
| WorkerAnswers.KnownIsRefused | examples/testnet_support/mod.rs:269-329 | a preparation whose block is archived is rejected and dropped |
| WorkerAnswers.ProducerRoundCommits | examples/testnet_support/mod.rs:269-329 | a whole round of preparing, proposing, extending the approvals and committing succeeds if and only if block hash and identifier are free |
| WorkerAnswers.WorkerRecoversExactly | examples/testnet_support/mod.rs:338-365 | a recovery makes the worker available if and only if the archive recovers and matches the pins; then it is at the durable history, and no preparation is left in any case |
| WorkerAnswers.ExtendsExactly | examples/testnet_support/mod.rs:390-403 | an extension is accepted if and only if the worker is available and the document is short, contiguous, repeats no identity and starts with every loaded pin; otherwise nothing changes |
| WorkerAnswers.PreparesExactly | examples/testnet_support/producer.rs:199-237 | preparing is accepted if and only if the worker keeps a preparation on the present tip, or has none, is at the approved head below height 200 and the archive prepares the selected body |
| WorkerAnswers.ProposesExactly | examples/testnet_support/producer.rs:244-276 | a proposal is given if and only if the preparation is on the present tip and signed already, or at the approved head and the key signs; it is never signed twice |
| WorkerNode.HistoryConserves | src/native_transfer.rs:331-501 | in every history all balances plus all burns equal those of the seeds |
| WorkerNode.SelectedBodyExecutes | examples/testnet_support/producer.rs:199-237 | on every reachable archive whose seeds fit 128 bits the selected body executes exactly when the totals have room |
| WorkerNode.PrepareYields | examples/testnet_support/producer.rs:199-237 | at the approved head of every reachable archive, with admitted entries and room in the totals, preparing yields a preparation unless an identifier of the selected body collides with an archived or earlier one |
| WorkerNode.RealWorkerPrepares | examples/testnet_support/producer.rs:199-237 | the real worker executes and prepares through the archive's own rules, as the previous result asks |
| WorkerNode.ArchivedEntryIsStale | examples/testnet_support/producer.rs:132-139 | an archived pool entry has a used nonce, or its identifier collides with a transaction of the archive |
| WorkerNode.NonceTestSuffices | examples/testnet_support/producer.rs:132-139 | unless an archived transaction collides with an entry, the cleanup's identifier test is implied by its nonce test |
| WorkerNode.Node.ApplyEnvelope | examples/testnet_support/mod.rs:173-259 | the command follows its state function, branch by branch |
| WorkerNode.Node.CommitPreparation | examples/testnet_support/mod.rs:269-329 | the command follows its state function |
| WorkerNode.Node.Recover | examples/testnet_support/mod.rs:338-365 | the command follows its state function |
| WorkerNode.Node.Extend | examples/testnet_support/mod.rs:390-403 | the command follows its state function |
| Controller.ChainOfPrefixes | scripts/testnet_fixture_controller.py:375-498 | follower archive, follower approvals, observations, producer archive, producer approvals and corpus are prefixes of each other, and the corpus is at most one step ahead |
| Controller.InitializedIsOk | scripts/testnet_fixture_controller.py:195-238 | right after initialization the chain of prefixes holds |
| Controller.PublishFacts | scripts/testnet_fixture_controller.py:99-128 | publication never replaces a file, and leaves it absent, torn or exactly the value |
| Controller.DerivedDocumentLoads | scripts/testnet_fixture_controller.py:315-318 | every document derived from the corpus loads in a worker, because workers accept only new identities |
| ControllerRuns.LoadableExactly | scripts/testnet_fixture_controller.py:283-337 | a site in order loads if and only if neither the last selection nor an approval file is torn |
| ControllerRuns.StepExactly | scripts/testnet_fixture_controller.py:446-470 | a step keeps the site in order wherever it is interrupted and adds at most its proposal; it completes only from a site with nothing torn, both archives level with a corpus below the budget and a framed proposal that the producer's archive accepts (which WorkerProposals.ProposalIsAccepted shows of the real producer), uninterrupted it completes exactly then, and completed both archives equal the extended corpus |
| ControllerRuns.ReconcileExactly | scripts/testnet_fixture_controller.py:472-479 | a reconciliation commits nothing; uninterrupted it completes if and only if nothing is torn, and then observations and follower authority cover what the producer retains |
| ControllerRuns.ReplayExactly | scripts/testnet_fixture_controller.py:481-498 | a replay keeps the corpus; uninterrupted it completes if and only if the corpus is non-empty and nothing is torn, and then both archives equal the corpus |
| ControllerRuns.InvokeKeeps | scripts/testnet_fixture_controller.py:446-498 | every invocation relates its site before and after as its kind allows |
| ControllerRuns.LastInvocation | scripts/testnet_fixture_controller.py:446-498 | the last invocation of every run meets a site in order and changes it as its kind allows |
| ControllerRuns.ChainInEveryRun | scripts/testnet_fixture_controller.py:375-498 | in every run of interrupted invocations the six-way chain of prefixes holds and nothing durable is lost |
| ControllerRuns.ReplayAfterAnyRun | scripts/testnet_fixture_controller.py:481-498 | after any run one uninterrupted replay completes both archives exactly if there is a corpus and nothing is torn |
| ControllerRuns.TornForever | scripts/testnet_fixture_controller.py:99-128 | on a site with a file cut short no invocation succeeds, and none repairs it |
| ControllerRuns.StuckSometimes | scripts/testnet_fixture_controller.py:446-470 | for every protocol and every packet it accepts first, a run that selects the packet, is cut short while publishing the producer's authority, and after which no replay succeeds |
| ControllerSession.Session.LoadRecords | scripts/testnet_fixture_controller.py:283-313 | loading yields exactly the durable corpus and fails only on a torn tail, a corpus that does not fit, or an interruption |
| ControllerSession.Session.ArtifactHead | scripts/testnet_fixture_controller.py:320-337 | accepts exactly if every approval file is the derived authority and every follower file has its observations, and returns the highest |
| ControllerSession.Session.LoadSession | scripts/testnet_fixture_controller.py:195-238 | the load at the start of an invocation follows its transition |
| ControllerSession.Session.WriteProducerApproval | scripts/testnet_fixture_controller.py:339-350 | publishes derived producer authority as its transition says |
| ControllerSession.Session.WriteFollowerApproval | scripts/testnet_fixture_controller.py:339-350 | publishes follower authority as its transition says, only on complete observations |
| ControllerSession.Session.ObserveProducer | scripts/testnet_fixture_controller.py:395-415 | the loop publishes an observation of every step the producer retains |
| ControllerSession.Session.ReleaseFollower | scripts/testnet_fixture_controller.py:417-425 | a current observation precedes the released authority |
| ControllerSession.Session.SelectRequest | scripts/testnet_fixture_controller.py:375-393 | the request is durable before any authority is derived from it |
| ControllerSession.Session.Step | scripts/testnet_fixture_controller.py:446-470 | the command ends with the durable state and answer of its transition, which StepExactly characterizes |
| ControllerSession.Session.Reconcile | scripts/testnet_fixture_controller.py:472-479 | likewise, with ReconcileExactly |
| ControllerSession.Session.Replay | scripts/testnet_fixture_controller.py:481-498 | likewise, with ReplayExactly |
| ControllerSession.RunProcess | scripts/testnet_fixture_controller.py:501-532 | one process runs one invocation, and relates the sites before and after as its kind allows |
| ControllerSession.RunInvocations | scripts/testnet_fixture_controller.py:446-498 | processes run one after another compute the run of the transitions, which keeps the site in order and loses nothing |
| WorkerProtocol.AcceptedIsNew | src/authenticated_fixture.rs:606-680 | a packet that the archive accepts has a block hash and an envelope identifier new to the archive, and is not the anchor |
| WorkerProtocol.ProtocolIsLawful | examples/testnet_support/mod.rs:173-259 | identity and acceptance computed by the real archive satisfy the law the controller relies on |
| WorkerProtocol.RealWorkersReplay | scripts/testnet_fixture_controller.py:481-498 | with the real workers, from initialization and through any run, replay completes both archives exactly if there is a corpus and nothing is torn |
| WorkerProtocol.AcceptedIsCommitted | examples/testnet_support/mod.rs:173-259 | a packet accepted next, once selected, is committed by an undisturbed worker and becomes the next envelope of its durable history |
| WorkerProposals.TipOfHistory | src/authenticated_fixture.rs:1516-1690 | the tip of a history has one slot per envelope above the anchor and the hash of its last block, and no indexed slot is above it |
| WorkerProposals.PreparedExtends | src/authenticated_fixture.rs:435-497 | an attested envelope around a prepared block extends the archive it was prepared on, unless its block hash is already indexed |
| WorkerProposals.ProposalIsAccepted | examples/testnet_support/producer.rs:199-276 | what the producer prepares and signs on its archive, that archive accepts, unless the block hash or the envelope identifier repeats an archived one |
| WorkerProposals.ProposalIsFramed | scripts/testnet_fixture_controller.py:262-281 | and it has the network, profile, slot, parent, ticket and producer that the controller checks |
| WorkerProposals.RealStepCompletes | scripts/testnet_fixture_controller.py:446-470 | on a level site with nothing torn below the budget, an uninterrupted step with the real producer brings its proposal into both archives, unless it repeats an archived hash or identifier |
| WorkerProposals.SignedIsReceived | src/block_authentication.rs:394-415 | an envelope whose attribution succeeds is received from its own wire bytes |
| SlotEconomy.RefreshBacks | src/app/accounts.rs:295-330 | a refresh restores backing for its validator and changes no money |
| SlotEconomy.MintTickets | src/app/accounts.rs:384-406 | the minting loop |
| SlotEconomy.MintKeepsTickets | src/app/accounts.rs:384-406 | a purchase keeps unique identifiers and active buckets if and only if the identifiers after the highest one last for all of its tickets |
| SlotEconomy.MintedUnique | src/app/accounts.rs:384-406 | later tickets, whose identifiers count up from the highest and stop at the top, are unique if and only if the earlier ones were and the identifiers last for all of them |
| SlotEconomy.PurchaseIsUniqueBelowTop | src/app/accounts.rs:384-406 | identifiers are unique after a purchase if and only if they were before and the highest plus the number bought stays below 2^64 |
| SlotEconomy.MintRepeatsSometimes | src/app/accounts.rs:384-406 | a list at 2^64 - 1 whose next mint repeats an identifier |
| SlotEconomy.LockRewardKeeps | src/app/accounts.rs:65-87 | locking raises vault, locked and pending amounts alike and keeps unlock epochs in range |
| SlotEconomy.UnlockRewards | src/app/accounts.rs:89-103 | the unlocking loop |
| SlotEconomy.UnlockIsExact | src/app/accounts.rs:89-103 | no unlock subtraction clamps: each validator loses exactly what is due |
| SlotEconomy.UnlockKeeps | src/app/accounts.rs:89-103 | unlocking the next epoch keeps locked equal to pending, within vaults and within four epochs |
| SlotTransactions.ExecKeeps | src/app/consensus.rs:226-382 | every transaction, with room and while identifiers last for the tickets it adds: never given up after a debit, exactly accounted, all registry invariants kept |
| SlotTransactions.GivesUpExactly | src/app/consensus.rs:309-381 | a transaction is given up after a debit if and only if value plus fee overflows and the payer holds 2^128 - 1 |
| SlotTransactions.GivesUpSometimes | src/app/consensus.rs:357-381 | a concrete transfer that is given up |
| SlotEngine.FillBlock | src/app/consensus.rs:226-392 | the loop over the mempool |
| SlotEngine.FillKeeps | src/app/consensus.rs:226-392 | filling a block keeps every invariant and accounts for every fee, while identifiers last for the tickets it adds |
| SlotEngine.RewardKeeps | src/app/consensus.rs:400-425 | the base reward is minted into the leader's vault, locked and counted |
| SlotEngine.ShareOffset | src/app/consensus.rs:638-659 | the loop over a sub-epoch's proposers |
| SlotEngine.ShareIsHalf | src/app/consensus.rs:638-642 | all shares together are at most half of the burned fees |
| SlotEngine.CloseSubEpochKeeps | src/app/consensus.rs:631-673 | closing a sub-epoch keeps the books and the half bound |
| SlotEngine.FinalizeKeeps | src/app/consensus.rs:961-981 | finalized retirements re-examine every owner that loses a ticket |
| SlotEngine.TransitionsKeep | src/app/consensus.rs:930-959 | ended cooldowns keep backing and money |
| SlotEngine.CloseEpochKeeps | src/app/consensus.rs:670-695 | closing an epoch unlocks what is due, finalizes and transitions, and moves no money |
| SlotEngine.StageKeepsEconomy | src/app/consensus.rs:70-103 | a staged slot keeps every invariant of the economy, while amounts have room and identifiers last for its tickets |
| SlotEngine.StageKeepsChain | src/app/consensus.rs:116-184 | a staged slot extends the linear chain by exactly its block |
| SlotEngine.IndexIsInverse | src/app/consensus.rs:853-876 | the hash index is the inverse of the stored blocks if and only if no two share a hash |
| SlotEffects.VaultMinimumIs | src/app/accounts.rs:26-45 | nothing without tickets, else five ticket costs plus half of one for each ticket that is not dead |
| SlotEffects.RefreshExactly | src/app/accounts.rs:295-330 | a validator that is not jailed or cooling down is active after its refresh if and only if it has its minimum and a live ticket; how one that loses them ends; nobody else changes |
| SlotEffects.GenericExactly | src/app/consensus.rs:357-381 | when a transfer executes, and every balance after it |
| SlotEffects.RegisterExactly | src/app/consensus.rs:249-281 | when a registration executes, what the payer pays and the validator it adds |
| SlotEffects.BuyExactly | src/app/consensus.rs:282-308 | when a purchase executes, what the payer pays, what is burned and minted, and that activation is decided anew |
| SlotEffects.DepositExactly | src/app/consensus.rs:309-334 | when a deposit executes, what the payer pays and the vault gains, and that activation is decided anew |
| SlotEffects.WithdrawExactly | src/app/consensus.rs:335-356 | when a withdrawal executes, what the vault gives and the owner receives and pays, and that activation is decided anew |
| SlotEffects.FundingActivates | src/app/consensus.rs:282-334 | an executed purchase or deposit leaves its validator active if and only if it has its minimum and a live ticket, unless it is jailed or cooling down |
| SlotEffects.MintedTickets | src/app/accounts.rs:384-406 | bought tickets belong to the validator, are live and lie in the bucket of their identifier |
| SlotEffects.PurchaseActivates | src/app/consensus.rs:282-308 | a covered validator is active after any purchase, its first one included |
| SlotEffects.LocksExactly | src/app/accounts.rs:65-87 | a locked reward raises vault and locked amount of one validator and is due exactly four epochs later; everybody else and every other epoch stays |
| SlotEffects.RewardsExactly | src/app/consensus.rs:400-429 | the leader gets exactly the base reward, locked, with one miss forgiven and the issuance counted |
| SlotEffects.ShareIs | src/app/consensus.rs:632-640 | the share of one block is half of the burned fees over the produced blocks |
| SlotEffects.SharesExactly | src/app/consensus.rs:641-656 | each registered proposer gets exactly one share per block, due four epochs later; nobody else gets any, and the total counts all of it |
| SlotEffects.SubEpochExactly | src/app/consensus.rs:631-670 | closing a sub-epoch shares exactly that and starts anew |
| SlotEffects.FinalizesExactly | src/app/consensus.rs:961-981 | exactly the scheduled tickets die, exactly their owners are decided anew, and no money moves |
| SlotEffects.TransitionsExactly | src/app/consensus.rs:930-959 | exactly the cooldowns that are over end, each in the state that vault and tickets decide |
| SlotEffects.BaseRewardIs | src/app/accounts.rs:105-112 | the base reward is supply times rate over the slots of a year |
| SlotEffects.EpochCounts | src/app/consensus.rs:671-695 | the next epoch begins, its unlocks and retirements are consumed, and every 365 epochs the rate decays by a tenth down to its floor with a new base reward |
| SlotEffects.EpochExactly | src/app/consensus.rs:671-695 | at an epoch boundary no vault changes, each locked amount falls by exactly what was due, and exactly the scheduled tickets are dead |
| SlotEffects.BoundariesExactly | src/app/consensus.rs:630-676 | a sub-epoch closes every 1,200 slots and an epoch every 28,800 |
| SlotEffects.PbmExactly | src/app/consensus.rs:537-550 | the selected bootstrap transaction is the ready one that matures first, then has the least hash; there is one if any is ready |
| SlotEffects.TakesExactly | src/app/consensus.rs:230-392 | the transaction at the head always leaves the pool and is included if and only if it is for this chain and executes |
| SlotEffects.FillsExactly | src/app/consensus.rs:226-392 | a filled block is within its limits, its gas and fees are the sums over its transactions, and filling stops only for an empty pool, a transaction that waits or does not fit, or the producer's stop |
| SlotEffects.BlockKinds | src/app/consensus.rs:70-103 | which kind of block a slot gets, its proposer and ticket, and that a missed slot changes nothing |
| SlotEffects.OwnBlock | src/app/consensus.rs:226-443 | an own block carries the filled transactions with their gas and fees, which are counted as burned |
| SlotEffects.SubmitsExactly | src/app/accounts.rs:339-382 | where a submission goes: the mempool, the bootstrap pool with its maturity, or nowhere |
| SlotRuns.RetireKeeps | src/app/core.rs:466-522 | a local retirement re-examines the local validator and affects nobody else |
| SlotRuns.LowestAreChosen | src/app/core.rs:466-500 | a retirement takes retirable tickets, the lowest identifiers first, and leaves one out only if the requested number is reached |
| SlotRuns.RetireIsExact | src/app/core.rs:466-522 | exactly the chosen tickets are muted and scheduled two epochs ahead; bank, pools and chain stay |
| SlotRuns.StartIsOk | src/app/core.rs:4-131 | a fresh node, with its drawn leader and computed base reward, satisfies every invariant, for every bootstrap whose balances fit |
| SlotRuns.RunTickets | src/app/accounts.rs:384-406 | in every local run, with or without room, tickets keep their identifiers and new ones count up from the highest |
| SlotRuns.RunIsUniqueExactly | src/app/accounts.rs:384-406 | identifiers are unique after a local run if and only if they were at its start and last for all tickets it buys, whatever else happens |
| SlotRuns.GenesisIsUniqueExactly | src/app/core.rs:42-58 | from a fresh node on they are unique if and only if the bootstrap identifier (1 without one) plus the number of tickets is at most 2^64 |
| SlotRuns.BootstrapLeads | src/app/core.rs:121-124 | a bootstrap validator draws itself as the leader of slot 0 |
| SlotRuns.RunKeepsEngine | src/app/consensus.rs:4-103 | every local run in which amounts have room, and whose purchases fit between the highest identifier and 2^64, keeps every invariant of the engine, unique identifiers included |
| SlotRuns.SupplyDrift | src/app/accounts.rs:4-20 | supply plus burns minus issuance moves only by fees paid in other tokens |
| SlotRuns.SupplyDriftsSometimes | src/app/consensus.rs:309-443 | a fresh bootstrap node that is sent one transfer whose fee is in another token: after its first slot the books are off by that fee |
| SlotRuns.SupplyIsConstant | src/app/consensus.rs:226-443 | with all fees in ETX it is constant over every local run |
| SlotRuns.GenesisSupplyIsConstant | src/app/core.rs:4-131 | and equals the supply a fresh node started with |
| SlotRuns.ReachableBooks | src/app/consensus.rs:630-695 | burn offset at most half, locked equals pending within four epochs and vaults, active implies minimum and a live ticket |
| SlotRuns.CandidatesAreDrawable | src/app/consensus.rs:193-224 | with the ticket rules, all candidates have distinct identifiers and active buckets |
| SlotRuns.ReachableCandidates | src/app/consensus.rs:193-224 | after every local run with room, all candidates have distinct identifiers and active buckets |
| SlotRuns.LeaderIsDrawn | src/consensus_hash.rs:427-434 | at every slot, seeded by the fixed genesis hash below slot 32 and by the ancestor 32 slots back from there on, an eligible ticket and an accepted draw give a leader that owns an eligible ticket |
| SlotRuns.SumEtx | src/app/accounts.rs:4-20 | the fold over accounts is the total held |
| SlotRuns.FinishEpoch | src/app/consensus.rs:670-695 | the epoch boundary as specified |
| SlotRuns.CrossBoundaries | src/app/consensus.rs:630-695 | both boundaries as specified |
| SlotRuns.Engine.Stage | src/app/consensus.rs:70-103 | staging leaves the engine alone; on a linear chain the candidate stays linear, its blocks are the old ones plus the new one, and staging fails exactly if that block does not encode |
| SlotRuns.Engine.FinishSlot | src/app/consensus.rs:17-68 | success installs exactly the candidate; failure changes nothing but the log and a dropped remote block |
| SlotRuns.Engine.Tick | src/app/core.rs:133-143 | one round: success advances the slot by one, failure keeps the state; the remote block of the slot is dropped, and the log grows by one entry for that and one for a failure |
| SlotRuns.Engine.RetireTickets | src/app/core.rs:466-522 | the muting loop performs the retirement that RetireIsExact and LowestAreChosen describe, and keeps every invariant of the engine |
| SlotRuns.Engine.SubmitTx | src/app/accounts.rs:339-382 | an accepted submission makes the pools one longer, a refused one changes nothing; every invariant of the engine is kept |
| SlotRuns.OnlyEncodingFails | src/app/consensus.rs:70-184 | on a linear chain a slot is discarded only for its encoding or persistence |

## Left out

- SQLite itself, schema text, triggers, pragmas, column widths, file locks and fsync: one durable value with atomic transactions and an uncertain COMMIT stands for them.
- Elliptic-curve arithmetic, signature nonces and Keccak: arbitrary fixed functions.
- The unsigned archive of src/canonical_fixture.rs and the account store of src/durable_fixture.rs: siblings of the authenticated archive with fewer checks.
- Provenance text and binding order in the archive policy: the stored policy is compared as one value.
- Test hooks of the archive owner, including a failure between installation and return: they exist only in test builds.
- Export, status, inspection and paging commands of the worker: they only read.
- Known-block packets with a different envelope in the controller's protocol: the controller only ever replays the selected packet.
- Proposals whose block hash or envelope identifier collides with an archived one: WorkerProtocol.Accepted treats them as refused, as the unique index of the archive does on commit.
- Controller initialization, historical targets, worker processes and pipes: runs start after initialization, and a lost reply is a stop at that point.
- Worker.Handle: submission replaces the pool contents by arbitrary ones; the pool's own rules are in ProducerPool.Pool.Submit.
- WorkerNode.SetupIsLawful: signing is any function that wraps the given block; that the key matches the binding is not needed.
- WorkerProposals.ProposalIsAccepted: that the producer's signature recovers to its bound key is a property of the curve; the lemma asks that the proposed bytes are received, which WorkerProposals.SignedIsReceived reduces to it.
- Address normalization in the slot engine: accounts are modelled under normalized names.
- Registration data (hex, JSON and key parsing): an arbitrary partial function of the data.
- Block and transaction encoding in the slot engine (V1): arbitrary predicates and hashes, with the round-trip check as a predicate.
- Event texts, history window, liveness counters, per-epoch statistics, epoch seed, nonce tracker and raw-transaction receipts of the slot engine: no property here depends on them.
- Gossip, peer state merging, resynchronization, RPC, faucet, wallets and the terminal interface: outside a local run.
- SlotRuns.RunKeepsEngine: slot and epoch numbers are unbounded, because 64-bit slots do not run out.
