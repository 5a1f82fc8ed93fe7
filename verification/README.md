# Verified model of the incident-response platform's stateful core

A Dafny model of the parts of the platform whose promises hold over whole runs: the tamper-evident audit ledger, the
custody seal, the store-and-forward transport of evidence, ingest, engine adjudication, and five smaller computations
that must mean what a simple definition says. Code that changes state is modelled by classes and loops, each tied to a
function of its inputs or its old state; the theorems are about those functions and about all sequences of steps.

| file | models |
|---|---|
| `Ledger.dfy`, `LedgerRuns.dfy` | the hash chain, its verifier and its signatures; concurrent appenders under the advisory lock |
| `AcknowledgedGaps.dfy` | signed checkpoints over known breaks, and the command that records them |
| `CustodyChain.dfy`, `CustodyRuns.dfy` | one custody chain per collection run; concurrent appenders, one lock per run |
| `Custody.dfy` | sealing and verifying an evidence folder, and keys across rotations |
| `Ingest.dfy`, `IngestRuns.dfy`, `Redelivery.dfy` | one bundle into rows; what every sequence of bundles keeps; when redelivery adds nothing |
| `Transport.dfy`, `TransportRuns.dfy` | receiver, puller and broker; every interleaving with crashes and lost messages |
| `Adjudication.dfy`, `AdjudicationRuns.dfy` | one engine pass; passes and analyst decisions in any order |
| `SignOns.dfy` | request counts buffered in worker processes |
| `Backlog.dfy`, `Columns.dfy`, `Notes.dfy` | the open-findings series, the column allocator, the ELF note walk |
| `Numerals.dfy` | decimal numerals, for row ids in the audit trail and as short machine-ids that are not in use |
| `FirstSeen.dfy`, `MergeFindings.dfy` | keyed de-duplication and the findings merge |
| `Common.dfy` | options, clipping, blank stripping |

SHA-256 is taken as collision-free and HMAC as ideal: digests and tags are values of free constructors. Time, free disk
space, lost messages, the order rows come back in where the code leaves it open, and the engine's report are parameters,
so every theorem holds for all of them. `dafny verify dfyconfig.toml` checks the whole project.

## Where the code and its words disagree

The model follows the code. Each of these is a theorem with its exact condition.

- `platform/backend/cases/audit.py:184-185` says no key rotation can cause a chain break. A checkpoint's signature is
  recomputed under the key in force, so rotating breaks an acknowledged ledger unless the key is the same, unset, or there
  was no gap (`RotationKeepsAcknowledgedChainIff`, `RotationCanVoidACheckpoint`). Without checkpoints the claim is true
  (`VerdictIgnoresKey`).
- `platform/backend/cases/audit.py:184-185` also says a break is always tampering or loss. A row is hashed from the values passed in
  and checked against what its columns give back, and a JSON column may give back another text for a value (a number written
  with an exponent, say). What the appenders commit verifies exactly when every payload survives its columns
  (`EveryRunVerifies`), and `RewordedPayloadReadsAsBreak` is an honest row that reads as broken.
- `platform/backend/cases/audit.py:190-191` calls a mismatch under the current key a real forgery signal. One append reads the
  rendered key twice, for the signature and then for its identifier (`platform/backend/cases/audit.py:144-145`), and the
  verifier reads it again at every row. A rotation between the two reads of an append, or during a walk, makes an honest row
  count as invalid; exactly when is `CommittedRowStanding` and `RotationDuringTheWalk`, and
  `RotationInsideACallReadsAsForgery` is such a run.
- `platform/backend/cases/audit.py:6-7` says removing a historical row is detectable. Removing rows is detected exactly when
  they are not the tail (`RemovalUndetectedIffTail`).
- `platform/shared/custody.py:55-65` says an attributable reason means the seal was cryptographically checked. With no key
  configured an unsigned seal gets the same reason, so that holds exactly when a key is configured
  (`AttributableMeansCheckedIffKeyConfigured`, `UnsignedReadsAsVerifiedWithoutKey`).
- `platform/shared/custody.py:86-94` keeps archives restorable across rotations. The retired list is split at commas and
  stripped, so that holds exactly for keys without a comma and without blanks at the ends (`SealOutlivesRotationIff`).
- Ingest is meant to be idempotent on (investigation, host, stamp). Since the host is resolved first and may have been
  renamed, redelivery can never add a run, whatever storable bundles come between, exactly when the bundle carries a
  machine-id that, before the first delivery, is known or not claimed by another id on the host picked by name
  (`IdempotentIffKnownOrUnclaimed`). A bundle's evidence is filed exactly when no run of its case, resolved host and stamp
  is on record: a different bundle of the same three is taken for a redelivery and its findings are lost
  (`FiledIffNewCollection`).
- `platform/backend/cases/triage.py:159-160` says a bulk verdict gets the protection a single one does. It gets it exactly when it
  changes the finding's verdict or an analyst held the finding already (`BulkVerdictStandsIff`).
- `platform/backend/cases/authevents.py:198-199` flushes the count so that a closed sign-on is a final record. Only the worker
  that handles the sign-out flushes: the record is complete exactly when no other worker holds counts and none were lost
  (`ClosedRecordIsCompleteIff`). Expiry flushes nothing (`ExpiryFlushesNothing`).
- `platform/backend/cases/aggregates.py:640-660`: where a decision precedes its finding's arrival the running total is off
  by a counted amount, and the clamp at zero hides some of it (`RunningAccount`, `PlottedIsOpenIff`,
  `InversionHidesAnOpenFinding`). Where decisions never precede arrivals the
  series is right on every day, wherever today falls (`RunningIsOpen`).
- `platform/backend/cases/management/commands/audit_checkpoint.py:127-154`: acknowledging every break makes the ledger
  verify exactly when the checkpoints it already had were in order (`RecordAll`).
- `platform/backend/cases/investigation.py:284-286` says findings the engine could not attribute keep their verdict. They are ruled
  on under PID 0: over one pass such a finding keeps its verdict exactly when the image is synthetic, the report has no
  verdict for PID 0, or that verdict is the finding's own (`UnattributedKeepsVerdictIff`); `UnattributedCanBeOverturned` is a
  report that overturns one.

## Model

| member | source | states |
|---|---|---|
| Ledger.VerifyAuditDetail | platform/backend/cases/audit.py:179-242 | the walk takes the key's identifier once and reads the key again at each row; whatever those reads give, it accepts if and only if every row hashes over the hash before it and its own payload and names that hash, or has a checkpoint whose two hashes are those on either side of it and whose tag, where a key is read there, is that key's over exactly these; it names the first row that is neither, reports each row's standing position by position, and its five counts add up to the rows passed; under one unchanging key this is the verdict under that key |
| Ledger.AcceptedByColumns | platform/backend/cases/audit.py:204-223 | a row the walk does not refuse either links or has a checkpoint with the hash before the gap, the hash the row declares and the tag of the key in force over both |
| Ledger.RemovalBeforeAGapIsRefused | platform/backend/cases/audit.py:213-223 | rows taken away right before an acknowledged gap, so that another hash comes before it, leave a ledger that is refused there under any keys, if and only if the row behind the gap does not link to that other hash by itself |
| Ledger.StandingByColumns | platform/backend/cases/audit.py:204-236 | each of the six standings, if and only if: what the row's hash, signature and key identifier are against the hash before it and the two reads of the key |
| Ledger.StandingComesFromReads | platform/backend/cases/audit.py:188-191 | a linked row's standing is decided by four reads of the key, two when it was written and two when it is walked; it is invalid if and only if it was signed, is named after the key the walk began under, and was not signed under the key read at it |
| Ledger.RotationDuringTheWalk | platform/backend/cases/audit.py:199-236 | when the key changes at row m of a walk, an honestly signed row is reported invalid if and only if it lies at m or later and the first key signed it; every other standing and the chain verdict are unaffected |
| Ledger.VerdictIgnoresKey | platform/backend/cases/audit.py:149-156 | without checkpoints no key changes the verdict on the chain or on any row, not even one that changes during the walk |
| Ledger.SameHeadSameHistory | platform/backend/cases/audit.py:41-45 | two verifying ledgers that end in the same hash have the same length and agree row for row on payload and both hashes |
| Ledger.EntryHashesDistinct | platform/backend/cases/audit.py:199-242 | the heads of two prefixes of a verifying ledger differ whenever their lengths do |
| Ledger.NoTwoRowsShareAPredecessor | platform/backend/cases/audit.py:104-111 | in a verifying ledger no two rows follow the same row and no two have the same hash: no fork |
| Ledger.RemovalUndetectedIffTail | platform/backend/cases/audit.py:199-242 | any selection of rows of a verifying ledger verifies if and only if it is a prefix |
| Ledger.ChainedLinksIffSurvived | platform/backend/cases/audit.py:204-211 | in what appends made, a row links if and only if its columns give back the payload that was hashed, and the whole verifies if and only if all do |
| Ledger.ChainedHasNoFork | platform/backend/cases/audit.py:104-111 | what appends made has no fork, whatever the columns give back |
| Ledger.RotationOnlyMovesStandings | platform/backend/cases/audit.py:224-236 | after any run of appends with rotations between them the chain verifies under every key, and a row is unsigned, current or superseded according to the key that signed it, never invalid |
| Ledger.AuditTable.Audit | platform/backend/cases/audit.py:119-146 | appends exactly one row that links to the head and is signed under the key in force; a sound ledger stays sound |
| Ledger.AuditTable.RotateKey | platform/backend/cases/audit.py:84-92 | a rotation changes no row, and a sound ledger stays sound |
| LedgerRuns.EveryInterleavingIsOneChain | platform/backend/cases/audit.py:101-146 | however transactions lock, read, sign, insert, commit, roll back or roll back to a savepoint, wherever rotations fall and whatever the columns give back, the committed rows in id order form one chain that is only ever extended, and it verifies if and only if every payload survived its columns |
| LedgerRuns.EveryRunVerifies | platform/backend/cases/audit.py:101-146 | from an empty table every interleaving, rotations included, leaves a ledger the verifier accepts under any key if and only if every payload survived its columns, and in any case no two rows on one predecessor |
| LedgerRuns.RewordedPayloadReadsAsBreak | platform/backend/cases/audit.py:134-146 | for any payload and any other its columns may give back for it, a run commits an honestly signed row that the verifier refuses |
| LedgerRuns.RowWasWritten | platform/backend/cases/audit.py:133-146 | every row of every run goes back to the step that hashed and signed it and the later one that noted the key's identifier, stored it and gave it its id, and carries the keys in force at those two |
| LedgerRuns.CommittedRowWasCommitted | platform/backend/cases/audit.py:101-146 | every committed row was inserted by a transaction that then committed, and in between it was neither rolled back nor taken back to a savepoint: it was among that transaction's rows after every step |
| LedgerRuns.SavepointTakesBack | platform/backend/cases/audit.py:101-119 | rolling back to a savepoint takes back the transaction's rows inserted since and the head read or signed since, nothing of another's, and the lock if it was taken since |
| LedgerRuns.CommittedRowStanding | platform/backend/cases/audit.py:144-145 | in every run a committed row is a gap where its columns gave back another payload, and otherwise its standing is decided by the keys at its two reads and the two reads of the walk; under one key it is invalid if and only if its payload survived, it was signed under another non-empty key than that one and the identifier was read under that one, which takes a rotation between the two reads |
| LedgerRuns.RotationInsideACallReadsAsForgery | platform/backend/cases/audit.py:144-145 | for any two keys, a run that rotates between the two reads commits a row that links and that the verifier calls invalid |
| LedgerRuns.CallAppendsOneRow | platform/backend/cases/audit.py:119-146 | one uncontended call of the state machine, with no rotation inside it, appends the row the sequential append does |
| LedgerRuns.RowLocksAloneFork | platform/backend/cases/audit.py:104-111 | without the advisory lock two appenders can commit two rows on one predecessor, and the verifier refuses the second |
| AcknowledgedGaps.WalkBreaks | platform/backend/cases/management/commands/audit_checkpoint.py:35-49 | lists exactly the rows that do not link and have no checkpoint, with the hashes on both sides, in id order |
| AcknowledgedGaps.BreakListed | platform/backend/cases/management/commands/audit_checkpoint.py:35-49 | every row that does not link and has no checkpoint is on the list |
| AcknowledgedGaps.NotYetRecorded | platform/backend/cases/management/commands/audit_checkpoint.py:127-140 | no listed break has a checkpoint or repeats an earlier one's id |
| AcknowledgedGaps.RecordAll | platform/backend/cases/management/commands/audit_checkpoint.py:117-154 | refuses a blank reason or actor and then changes nothing; otherwise exactly the unacknowledged gaps get a checkpoint each, with both hashes, reason, actor and the key's tag column by column; old rows and old checkpoints are untouched; one linked audit row per acknowledgement, naming actor, row, reason and both hashes, is added in order; and the ledger then verifies if and only if its earlier checkpoints were in order |
| AcknowledgedGaps.AcknowledgedWalkIff | platform/backend/cases/audit.py:213-223 | a walk during which the key may change accepts a ledger acknowledged under one key if and only if at every gap the key in force is that one or none |
| AcknowledgedGaps.RotationKeepsAcknowledgedChainIff | platform/backend/cases/audit.py:213-223 | a ledger acknowledged under one key still verifies under another if and only if the keys agree, none is configured, or it had no gap |
| AcknowledgedGaps.RotationCanVoidACheckpoint | platform/backend/cases/audit.py:184-185 | a concrete ledger whose verdict a rotation alone turns from good to broken |
| CustodyChain.CustodyTable.Custody | platform/backend/cases/audit.py:245-259 | appends one event that links to its run's head, whatever state the chains are in, leaves every other run's chain as it was, and keeps all chains verifying if they did |
| CustodyRuns.EveryInterleavingKeepsEveryChain | platform/backend/cases/audit.py:245-259 | with one lock per run and transactions that append to several runs, however they interleave, commit, roll back or roll back to a savepoint, each run's committed events form one chain that is only ever extended and verifies if and only if every payload survived its columns |
| CustodyRuns.NoRunForks | platform/backend/cases/audit.py:249 | from an empty table no two committed events of one run follow the same one |
| CustodyRuns.CommittedEventWasCommitted | platform/backend/cases/audit.py:245-259 | every committed event was inserted, for the run whose head its transaction had read and under that head, by a transaction that then committed; in between it was neither rolled back nor taken back to a savepoint |
| CustodyRuns.SavepointTakesBack | platform/backend/cases/audit.py:245-259 | the same per run: exactly the events inserted and the locks taken since |
| CustodyRuns.CallAppendsOneEvent | platform/backend/cases/audit.py:245-259 | one uncontended call of the state machine appends the event the sequential append does |
| Custody.EvidenceFolder.BuildManifest | platform/shared/custody.py:36-46 | a path is listed if and only if it is on disk and its last component is neither of the two seal documents' names, with the file's hash and size |
| Custody.EvidenceFolder.Seal | platform/shared/custody.py:97-115 | writes a manifest that lists the files the folder holds and a record with its hash, its length and, if a key is set, that key's tag over it; changes no evidence file |
| Custody.EvidenceFolder.Verify | platform/shared/custody.py:118-173 | the verdict, in the order the checks are tried, and the comparisons made on the way; ok only if the manifest lists exactly the files on disk, hash and size; with both documents there and the record over the manifest, tamper is reported if and only if it does not, naming exactly the files that make the difference |
| Custody.VerifyTag | platform/shared/custody.py:140-173 | the third check: the configured key, then the retired ones in order until one matches, decide verified, superseded or forged; without a key nothing is compared |
| Custody.ManifestDeterminesEvidence | platform/shared/custody.py:36-46 | two sets of files with the same manifest are the same, path by path |
| Custody.AttributableMeansSealed | platform/shared/custody.py:63-65 | with a key configured and tags made only by sealing, an attributable verdict means the evidence is exactly some evidence sealed under a trusted key |
| Custody.AttributableMeansCheckedIffKeyConfigured | platform/shared/custody.py:55-65 | under an attributable verdict, one of the comparisons the verification made matched the tag if and only if a key is configured |
| Custody.UnsignedReadsAsVerifiedWithoutKey | platform/shared/custody.py:169-173 | without a key, a seal nobody signed is reported as verified |
| Custody.SealThenVerify | platform/shared/custody.py:97-173 | sealed, possibly altered, then verified: tamper is reported if and only if the evidence differs; otherwise verified, superseded, unsigned, forged-or-unknown or no-key exactly by the two key configurations, and attributable exactly by them |
| Custody.TamperReportIsExact | platform/shared/custody.py:132-139 | the refusal names exactly the paths added, removed and altered |
| Custody.JudgedByFiles | platform/shared/custody.py:118-139 | the same of every folder, manifest, record and key configuration, over the files themselves |
| Custody.AnyChangedFileIsNamed | platform/shared/custody.py:132-139 | sealed, then changed: any file but the two seal documents that was added, removed or altered is named as such in a refusal, under any keys, and where none was no tamper is reported |
| Custody.RotationRetires | platform/shared/custody.py:86-94 | rotating takes no key off the retired list and puts the old one on it when the list can carry it |
| Custody.RetiredKeysAreListable | platform/shared/custody.py:93-94 | the parsed list never yields an empty key, one with a comma or one with a blank at either end |
| Custody.SealOutlivesRotationIff | platform/shared/custody.py:86-94 | after any number of rotations a bundle reads as superseded if the list can carry its key and as forged if not |
| Ingest.Store.ResolveHost | platform/backend/cases/ingest.py:201-273 | finds by machine-id, then by name, then creates; renames and adoptions are recorded before the row changes |
| Ingest.KnownMachineFollowsItsName | platform/backend/cases/ingest.py:239-250 | a known machine resolves to its row; a name that is the machine's own and another than the recorded one replaces it, with the change recorded, and any other name changes nothing |
| Ingest.UnknownMachineGoesByName | platform/backend/cases/ingest.py:251-273 | any other machine resolves to a row of its name and platform, which takes the reported machine-id if it had none, with the change recorded; where there is none a row is added |
| Ingest.IocsFromFindings | platform/backend/cases/ingest.py:91-120 | the loop yields the recovered indicators not already among the hunt's, first occurrences in order |
| Ingest.NewIndicatorsExact | platform/backend/cases/ingest.py:91-120 | an indicator is added if and only if some finding recovered it and the hunt had it not, and none is added twice |
| Ingest.IndicatorsByColumns | platform/backend/cases/ingest.py:60-120 | a bundle's indicators are the hunt's, in order, and then every recovered one not there yet, once, each with 64 characters of its kind and 1024 of its value |
| Ingest.Store.RollUpSightings | platform/backend/cases/ingest.py:152-198 | the loop counts each row into its rollup and widens the window, under the host's present name |
| Ingest.Store.Ingest | platform/backend/cases/ingest.py:291-371 | one transaction over all tables: case, host, existing run or new run; a run it creates gets one row for each finding of the bundle, in order and no others, and one for each indicator; the case's name and incident id are the bundle's or their stand-ins |
| Ingest.IngestFiles | platform/backend/cases/ingest.py:291-345 | the same of every bundle and any tables: findings by index, each once, in order, none missed; indicators the hunt's first and then every recovered one that is not there yet, clipped to their columns; a collection on record adds nothing |
| IngestRuns.IngestCases | platform/backend/cases/ingest.py:291-345 | what an ingest does to each table, by whether the collection was filed before |
| IngestRuns.IdentityIsHistorised | platform/backend/cases/ingest.py:234-273 | after any bundles, each host's renames replay to its current name, each starting where the last ended; at most one machine-id was ever recorded, and no two hosts share one |
| IngestRuns.IdentityNeverRewritten | platform/backend/cases/ingest.py:239-273 | a machine-id once set never changes, and the history always starts from the name the host was created with |
| IngestRuns.UntrustedNameRenamesNothing | platform/backend/cases/ingest.py:223-226 | a name that came from the collecting container changes no recorded name |
| IngestRuns.NoCollectionHasTwoRuns | platform/backend/cases/ingest.py:310-316 | after any bundles no two runs share investigation, host and stamp |
| IngestRuns.ResolveKeepsIdentity | platform/backend/cases/ingest.py:201-273 | one identification keeps all of this and adds at most one host |
| IngestRuns.RollUpSummarizes | platform/backend/cases/ingest.py:152-198 | one bundle's rollup keeps every rollup exact |
| IngestRuns.DeliveriesKeepSound | platform/backend/cases/ingest.py:291-371 | any sequence of bundles keeps identity, run uniqueness and exact rollups; tables only grow |
| IngestRuns.RollupsIgnoreArrivalOrder | platform/backend/cases/ingest.py:152-198 | every rollup's count, first and last time are those of its indicator rows, so two histories with the same rows agree on all three whatever the order |
| Redelivery.KnownMachineFindsItsRun | platform/backend/cases/ingest.py:307-316 | a filed collection of a known machine is found again and nothing is added |
| Redelivery.ArrivalsOfAMachineConverge | platform/backend/cases/ingest.py:201-217 | whatever bundles come between and whatever name it reports, a known machine resolves to its one host |
| Redelivery.RedeliveryAddsNothing | platform/backend/cases/ingest.py:307-316 | filed on its machine, a bundle delivered again after any other bundles adds no run, finding, indicator or sighting |
| Redelivery.RedeliveryCanDuplicate | platform/backend/cases/ingest.py:251-258 | not filed on its machine, there are bundles, each fitting every column, after which a redelivery creates a second run; constructed for every such case |
| Redelivery.FiledOnItsMachineIffKnownOrUnclaimed | platform/backend/cases/ingest.py:239-273 | a bundle is filed on a host row with its machine-id if and only if, before its delivery, the id is known, or the host picked by name has none, or no host has the name |
| Redelivery.IdempotentIffKnownOrUnclaimed | platform/backend/cases/ingest.py:291-316 | over tables and bundles that fit their columns, redelivery adds no run, whatever comes between, if and only if the machine-id was known or unclaimed before the first delivery |
| Redelivery.FreshMachine | platform/backend/cases/models.py:119-133 | however many hosts there are, a machine-id of at most 64 characters is free |
| Redelivery.FiledIffNewCollection | platform/backend/cases/ingest.py:310-316 | a bundle creates a run and files its findings and indicators if and only if no run of its case, resolved host and stamp is on record; otherwise it adds neither, whatever it holds |
| Transport.StreamToFile | platform/dmz/receiver.py:88-102 | complete if and only if the whole declared length arrived, and the file is exactly those bytes |
| Transport.Receiver.Post | platform/dmz/receiver.py:241-295 | a bundle is held exactly when it is answered with an id: declared length positive, within the limit if there is one and with the headroom left free, body whole, archive readable and accepted by custody verification; the answer says verified exactly when the seal is attributable; nothing else changes what is held |
| Transport.Receiver.Fetch | platform/dmz/receiver.py:156-217 | without a configured token, or offered another, serves nothing; offered the configured one, serves the held bundle of that id |
| Transport.Receiver.Delete | platform/dmz/receiver.py:219-239 | without a configured token, or offered another, answers false and removes nothing; offered the configured one, removes exactly the named id |
| Transport.Puller.Broker | platform/ingest/ir_ingest.py:183-236 | nothing is posted unless custody verification passed and the image was stored; success exactly when the reply arrived too |
| Transport.Puller.ProcessOne | platform/dmz/puller.py:128-146 | a bundle is dropped only after the broker succeeded |
| Transport.Puller.PollOnce | platform/dmz/puller.py:237-248 | a poll is its pending bundles one after another, a failure of one not stopping the next, with a count of the successes |
| TransportRuns.RunKeepsSound | platform/dmz/receiver.py:241-295 | every step of endpoints, receiver, puller and other ingests, crashes included, keeps the invariant that what is stored was verified and what is no longer held was filed |
| TransportRuns.AnsweredIsHeldOrFiled | platform/dmz/puller.py:128-146 | in every run in which only the puller can delete, a bundle answered 202 arrived whole and verified, its manifest listing exactly its files, and is still held, or was verified again and has the run of its case, of the host it resolved to and of its stamp, with a row under that run for each of its findings and indicators, in order and none missed, unless an earlier delivery of another bundle created it, for the same case, host and stamp |
| TransportRuns.RunWasCreated | platform/backend/cases/ingest.py:310-342 | every run of every log was created by exactly one delivery, is the one of that delivery's case, resolved host and stamp, and holds its findings and indicators for good |
| TransportRuns.RetryFilesNothingTwice | platform/dmz/puller.py:139-146 | once filed on its machine, posting a bundle again after any run of the system adds nothing |
| TransportRuns.LeakedCredentialLosesEvidence | platform/dmz/receiver.py:125-148 | the assumption is needed: with the credential in other hands one delete loses any bundle that was taken, answered and not filed yet |
| TransportRuns.PostIsARun | platform/dmz/receiver.py:241-295 | one request to the receiver, refused, abandoned, quarantined or taken, is a run of the state machine with the same bundles held under the same ids and an answer exactly when it was taken |
| TransportRuns.DeleteIsAStep | platform/dmz/receiver.py:219-239 | one delete, whoever asks, is one step of the state machine: it removes the named id exactly when the credential is the puller's |
| TransportRuns.ProcessIsARun | platform/dmz/puller.py:128-146 | one attempt of the puller is a run of the state machine, with the same effect on what is held and on the tables |
| TransportRuns.PollIsARun | platform/dmz/puller.py:237-248 | a whole poll is a run of the state machine in which nobody else deletes, so the run theorems cover the puller's loop |
| TransportRuns.WholePollIsARun | platform/dmz/puller.py:237-248 | from an idle puller with the credential, the listing and the work on it, in whatever order the receiver lists what it holds, are one run in which nobody else deletes, and leave the puller idle |
| TransportRuns.CleanPollEmptiesPending | platform/dmz/puller.py:251-259 | a poll that reports every bundle done verified each one again inside and holds none of them any longer |
| TransportRuns.AttemptOnlyRemoves | platform/dmz/puller.py:139-146 | an attempt reports success only for a bundle it accepted and dropped, and never adds or alters what is held |
| Adjudication.RuleFinding | platform/backend/cases/investigation.py:326-408 | the loop body, branch by branch, is the ruling on one finding |
| Adjudication.Casebook.ApplyToFindings | platform/backend/cases/investigation.py:279-419 | every finding of the run is ruled on exactly once, others not at all, one history row per changed verdict, and the count of rewritten findings |
| Adjudication.Casebook.Persist | platform/backend/cases/investigation.py:200-276 | earlier current rows of the run are superseded; the rows added are the report's entries one by one: true positives with High, Medium or Low by weight, undetermined as Indeterminate and Low, noise as Likely False Positive and Low; a finding of the run that the engine may rule on ends with the verdict, confidence and stamp of the last entry for its PID, and is untouched where the report has none |
| Adjudication.RowsByColumns | platform/backend/cases/investigation.py:59-74 | the rows of any report, entry by entry and column by column |
| Adjudication.LastWordReaches | platform/backend/cases/investigation.py:326-400 | a finding the engine may rule on, whose PID the report lists, carries what the list of the last such entry says, by label, weight and rationale |
| AdjudicationRuns.RulingsAreLawful | platform/backend/cases/investigation.py:294-304 | an analyst's verdict, confidence and raw stand, and a verdict changes if and only if a history row records it, with both verdicts and both confidences, in the engine's name |
| AdjudicationRuns.RulingReachesTheFinding | platform/backend/cases/investigation.py:330-400 | a finding the engine may rule on takes its process's verdict, confidence and stamp; a diagnostic takes none |
| AdjudicationRuns.DiagnosticIsCleared | platform/backend/cases/investigation.py:326-347 | a diagnostic the engine holds is put back to Indeterminate and Low without any stamp, and left alone if it is there already |
| AdjudicationRuns.UnattributedKeepsVerdictIff | platform/backend/cases/investigation.py:284-292 | over one pass, a finding that names no process keeps its verdict if and only if it is of another run, the image is synthetic, the report has no verdict for PID 0, or that verdict is the finding's own |
| AdjudicationRuns.UnattributedCanBeOverturned | platform/backend/cases/investigation.py:352-358 | a report whose only entry is PID 0 turns such a finding into a true positive |
| AdjudicationRuns.RulingIsIdempotent | platform/backend/cases/investigation.py:389-391 | ruling again on the outcome rewrites and records nothing |
| AdjudicationRuns.SamePassAgainChangesNothing | platform/backend/cases/investigation.py:279-419 | the same pass applied again leaves every finding and the history as they are and counts no update |
| AdjudicationRuns.SameReportUnderAnotherAnalysis | platform/backend/cases/investigation.py:279-419 | the same report applied again under another analysis updates no finding, writes no history, and changes nothing but the analysis number inside recorded disagreements |
| AdjudicationRuns.HistoryLinksEndToEnd | platform/backend/cases/investigation.py:300-303 | over any passes and analyst decisions, each finding's history rows lead end to end from its first verdict to its current one |
| AdjudicationRuns.AnalystVerdictStands | platform/backend/cases/investigation.py:296-299 | over any passes and any decisions about other findings in between, a finding an analyst holds keeps everything but its recorded disagreement and gains no history |
| AdjudicationRuns.DisagreementIsRecorded | platform/backend/cases/investigation.py:367-381 | the finding records a disagreement, with the engine's verdict, confidence, label, analysis and rationale, if and only if the engine's verdict differs, and clears it otherwise |
| AdjudicationRuns.DecisionTakesHold | platform/backend/cases/triage.py:212-230 | one decision column by column: verdict, confidence, the analyst's hold and the cleared disagreement on that finding and no other, and one history row with both verdicts and both confidences |
| AdjudicationRuns.BulkReaches | platform/backend/cases/triage.py:135-162 | a bulk decision rewrites exactly the listed findings that carry another verdict, and no confidence |
| AdjudicationRuns.BulkVerdictStandsIff | platform/backend/cases/triage.py:159-162 | a bulk verdict outlives a disagreeing pass if and only if it changed the verdict or an analyst held the finding already |
| AdjudicationRuns.CurrentIsLastPass | platform/backend/cases/investigation.py:213-214 | a run's current process verdicts are exactly the rows of its last pass |
| AdjudicationRuns.EarlierRowsAreKept | platform/backend/cases/investigation.py:204-209 | no process verdict is dropped or rewritten; it is marked superseded once and never again |
| SignOns.Platform.Note | platform/backend/cases/authevents.py:84-111 | a request opens or reopens its sign-on and is counted, flushed once the interval is over |
| SignOns.RequestByColumns | platform/backend/cases/authevents.py:158-184 | one request column by column: counted in its worker's memory for 60 seconds after the sign-on was last seen, then everything that worker holds is added to the record or lost with the write; no other sign-on or worker is touched |
| SignOns.Platform.EndSession | platform/backend/cases/authevents.py:187-204 | a sign-out closes an open sign-on and flushes this worker's count for it |
| SignOns.Platform.Expire | platform/backend/cases/authevents.py:207-229 | closes exactly the open sign-ons last seen more than eight hours ago, at their last activity and as expired, and returns how many |
| SignOns.Platform.RestartWorker | platform/backend/cases/authevents.py:161-166 | a restart loses exactly what this worker held and nothing else |
| SignOns.TouchesAreAccountedFor | platform/backend/cases/authevents.py:158-184 | for any number of workers and any interleaving, stored plus pending plus lost counts equal the touches made |
| SignOns.EveryRunConserves | platform/backend/cases/authevents.py:158-229 | the account is kept from any state in which it holds |
| SignOns.ClosedRecordIsCompleteIff | platform/backend/cases/authevents.py:198-201 | the record a sign-out closes shows every request if and only if no other worker holds any and none was lost |
| SignOns.ExpiryFlushesNothing | platform/backend/cases/authevents.py:207-229 | an expired sign-on ends at its last activity and is complete if and only if nothing was pending or lost |
| Backlog.FirstDecisions | platform/backend/cases/aggregates.py:625-629 | for each reclassified finding the earliest of its recorded decisions stays |
| Backlog.Tally | platform/backend/cases/aggregates.py:631-649 | the opening backlog and each day's arrivals and decisions, counted over the findings |
| Backlog.Series | platform/backend/cases/aggregates.py:651-660 | one point for every day of the window; where decisions never precede arrivals each point's open value is the running total and the number of findings open that day |
| Backlog.RunningAccount | platform/backend/cases/aggregates.py:640-660 | for all findings and dates, the running total is the open count plus those counted too long minus those taken off too soon |
| Backlog.InvertedIffDecidedBeforeArrival | platform/backend/cases/aggregates.py:640-660 | a finding is miscounted in some window on some day if and only if its decision precedes its arrival |
| Backlog.RunningIsOpen | platform/backend/cases/aggregates.py:655-660 | where decisions never precede arrivals the running total is the open count on every day, so the clamp never acts |
| Backlog.PlottedIsOpenIff | platform/backend/cases/aggregates.py:658-660 | the plotted value is right if and only if the two kinds of inversion cancel, or the queue is empty and the clamp hides them |
| Backlog.InversionHidesAnOpenFinding | platform/backend/cases/aggregates.py:655-660 | a concrete inversion that plots an open queue as empty |
| Backlog.LastDayIsOpenNow | platform/backend/cases/aggregates.py:662-667 | when decided findings have left the entry state, the last day's open count is the present number in the entry state |
| Columns.FairWidths | platform/backend/cases/reportpdf.py:111-123 | the rounds end; their fair shares are those the needs and the page determine round by round, and never fall; every width is its need when all fit, and otherwise its need capped at the last share with the page used up |
| Columns.SplitParts | platform/backend/cases/reportpdf.py:115-122 | each round's two parts are distinct columns, hold every pending one, and are told apart by the fair share |
| Columns.Allocate | platform/backend/cases/reportpdf.py:111-125 | final widths add up to the page; needs that fit are each stretched by one factor of at least 1, others are capped at the last round's share and not stretched |
| Columns.CappedWidthsAreUnique | platform/backend/cases/reportpdf.py:107-110 | needs and page decide the capped widths: no other cap uses the page up differently |
| Columns.CappedWidthsAreMaxMinFair | platform/backend/cases/reportpdf.py:107-110 | any division that gives one column more takes from a column that had no more than it |
| Notes.BuildId | platform/collector/symbol_requisites.py:86-96 | on every byte string the loop ends with what the walk over whole notes yields |
| Notes.NoteRoundTrip | platform/collector/symbol_requisites.py:87-94 | a well-formed note written out reads back: name, type, descriptor and where the next one starts |
| Notes.BuildIdOfNotes | platform/collector/symbol_requisites.py:86-96 | over any well-formed notes, with any tail too short for a header, the result is the hex descriptor of the first type-3 note whose name starts with GNU, or empty |
| Notes.BuildIdComesFromTheData | platform/collector/symbol_requisites.py:86-96 | on any bytes the result is empty or the hex of bytes that are there |
| Notes.HexInjective | platform/collector/symbol_requisites.py:94-95 | equal build ids come from equal descriptors |
| Notes.HexByPosition | platform/collector/symbol_requisites.py:94-95 | two lower-case hex digits for each byte, the high half first |
| MergeFindings.Merge | playbooks/reporting/merge_findings.py:30-41 | the loop yields the de-duplicated union in first-seen order, and fails as a whole if and only if some key cannot be hashed |
| MergeFindings.MergeAssociative | playbooks/reporting/merge_findings.py:30-41 | merging is associative |
| MergeFindings.MergeIdempotent | playbooks/reporting/merge_findings.py:30-41 | merging the same new list again changes nothing |
| MergeFindings.MergeKeepsFirsts | playbooks/reporting/merge_findings.py:30-41 | the result is exactly the first record of each key in concatenation order, every key once |
| FirstSeen.KeepIsFirsts | playbooks/reporting/merge_findings.py:33-41 | skipping seen keys one by one keeps exactly the items that are, position by position, the first of a new key |

## Left out

- HTTP, TLS, sockets, S3, tar extraction, Celery and the filesystem: only their outcomes are modelled (success, failure, crash, short read).
- SHA-256, HMAC and JSON canonicalisation: a free constructor stands for each, so text ambiguities of their inputs (a `|` inside a checkpoint's hash columns, a tampered hash column that runs into the payload) are not modelled.
- The symbol-table channel of receiver and puller: it repeats the evidence channel with weaker guarantees.
- Concurrent ingest: bundles are applied one at a time; the investigation row has no unique constraint that would make two at once safe.
- Edits, merges and deletion of investigations, hosts and runs outside ingest, and retention.
- A host's clock context and capacity declaration, principals, captures, the custody event and the run's descriptive fields in ingest: stored, never read back by what is modelled.
- The shapes an IOC file may take and the extraction of indicators from a finding: a bundle carries the resulting lists.
- A collection time the parser rejects with an exception rather than as unreadable, and column overflows: the ingest fails and writes nothing. Where it matters, a bundle is required to fit (`Storable`).
- Building the payload in the broker: the archive and the broker's settings determine it, so it is a field of the archive.
- Seal documents that are JSON of the wrong shape, or whose tag is not ASCII: the comparison raises where the model judges a tag it cannot match as forged.
- The PID of a finding: a fixed value, since passes change no field it is read from.
- NaN and infinite engine weights: weights are real numbers, so a stamp always equals itself; a NaN weight would make every pass rewrite its findings.
- AdjudicationRuns.HistoryLinksEndToEnd: a pass and an analyst's decision are one step each. In the code a pass reads the findings and writes them back later without row locks, so a decision committed in between is overwritten and its history row no longer leads to the current verdict.
- True-positive counts, compromise evaluation, engine summaries, notes and timestamps of history rows: derived or descriptive.
- Input validation of analyst decisions (known verdict, note length, existing finding): a rejected decision is no step.
- An unreadable notes file, which gives an empty build id.
- Floating point in column widths: widths are real numbers; measuring the text of a cell is not modelled.
- Roles, workstations, audit entries and key derivation of sign-ons: only the counts, the times and the end of a sign-on.
- Threads inside one worker process: a request is counted in one step per worker.
- AcknowledgedGaps.RecordAll: columns give back what was hashed, and the key does not change while the command runs; each checkpoint it writes would otherwise be signed under the key of its moment.
- Ledger.AuditTable.Audit: the key does not change inside the call and its columns give the payload back as it was hashed; LedgerRuns drops both.
- CustodyChain.CustodyTable.Custody: its columns give the payload back as it was hashed; CustodyRuns drops that.
- TransportRuns.AnsweredIsHeldOrFiled: the broker's settings do not change between attempts. Where a bundle records no incident id the case comes from IR_INCIDENT_ID, and its name from IR_INVESTIGATION_NAME when set (`platform/ingest/ir_ingest.py:187-208`); a bundle is taken to belong to the case these give.
- TransportRuns.RetryFilesNothingTwice: the same; a retry after one of the two settings changed is filed under another case.
- The list, explain and single-record modes of the checkpoint command: the first two change nothing, the third is one round of the loop modelled.
- The scoping of the backlog to a reader's investigations, and the other numbers the endpoint reports.
- Health reports, statistics and the polling interval.
- Cloud normalizers, report text, PDF drawing, permissions and investigation transitions: table lookups, formatting or facts one branch settles.
