# VendorChain in Dafny

VendorChain takes vendor documents, keeps them encrypted, decides on them under a signed policy,
and commits only digest receipts to a write-once ledger. This project models the parts of it that
are hard to get right and proves what they are for. `dafny verify dfyconfig.toml` checks everything.

**The outbox protocol.** `StoreModel` gives the tables and one function per SQL transaction; `Store`
is the store class whose methods are proved equal to them. `EventLog`, `Fencing`, `AuditChain` and
`ReplayIndex` prove what holds after any sequence of transactions: the event log refines the tables,
stale workers are fenced, a sweep takes exactly the claims that have lapsed, the hash chain detects
tampering, and the purged replay index decides like the full history exactly when its clock readings
allow it. `EventDetails` shows that the events go on telling what the tables hold. `Protocol` puts any
number of uploads, workers, deliverers and reconcilers beside an external ledger; one step is one transaction, one ledger call or one file operation, and a crash,
a lost reply, a lease sweep or a foreign ledger write may fall between any two steps.
`ProtocolSafety` proves agreement between the tables and the ledger over every run, `LedgerWrites`
that whoever wrote a record had checked it and that an expired or altered one gets none, `Origins` that
every submission passed its gate and every receipt was worked for, `BlobSafety` when a submission
keeps its ciphertext file, and `Solo` what one process achieves when nothing interferes.
`Pipeline` is the imperative pipeline; each of its methods ends in the state of the process that
models it.

**The contract.** `Chaincode` says for every contract function what it returns, reads and writes;
`Contract` is the imperative contract over a stub, proved equal to it. `Mvcc` separates endorsement
(on a state that may be old) from commit (which validates the versions read) and proves that every
commit is serial, so revocations and the evidence-only switch cannot be raced. `Backing` says what
every committed record, key and revocation rests on. `Gateway` is the
bridge's commit protocol with the rest of the network acting between its calls.

**The file gates.** `Jpeg` and `Png` are the walkers, proved to accept exactly the prints of a marker
or chunk grammar; `PngDamage` shows that one wrong byte under a checksum is refused. `UniquePng` (with
`Crc32`) is the load generator's edit of a PNG. `PdfGraph` and `PdfWalk` are the object walk of the PDF
gate on arbitrary, also cyclic, object graphs; `PdfContent` says entry by entry what it lets through.

**Evidence.** `Evidence` holds signed documents, receipts, the evidence root, tree hashes and the
signed policy; `Hardened` and `HardenedPipeline` what processing binds and delivery checks again
before it submits. Every read has its own moment, and anything may change between two reads. `Testimony`
says which keys, signatures and digests a payload rests on when it goes to the ledger.
`ReplacedInventory` is a concrete processing whose inventory file changes between two of its reads.

**Matching, checksums, sampling.** `EditDistance` and `OcrScore`: the rolling-row matcher against
edit scripts. `Gstin`: the mod-36 check character. `ProcessTree`: the closure over parent links.

**Experiments.** `Journal`, `Recovery`, `RecoveryProofs`, `Recoverer` and `CampaignDirectory`: writing
a campaign's journal and recovering it; `RecoverySoundness`: what any recovery vouches for.
`TrialSummary`: its counts and paired differences. `LoadBurst`, `LoadMeaning` and `LoadSummary`:
accounting for load campaigns. `Prelude`, `Bytes`, `Words`, `Tolerance` and `Json` are shared.

## What the environment is assumed to do

- SQL transactions are atomic and serialized; exclusive file creation and unlinking are atomic.
- The external ledger stores at most one record per id, under a transaction id of its own choice that
  is never empty, and never rewrites a record. It may also take a payload from others, or commit late
  an earlier submission whose reply was lost. Fabric delivers a total order of commits and validates
  the versions of the read set.
- Hashing, canonical JSON, signatures, OPA, Cosign, the XML parser and PDF decoding are functions.
  Collision-freedom is assumed only of the finitely many messages a theorem is about, and the
  canonical form is assumed to be read back to what was written.
- The clock is an input of every step and may go back. Whether a receipt verifies at a time is an
  arbitrary predicate of payload and time.
- Numbers in journals and records are within the range of a float. On an integer of 2^1024 or more
  `math.isclose` raises (`research/recover_journal.py:24`), and recovery with it.

## Where code and documentation or expectation differ

- The hash chain covers the event text, not the `record_id` column beside it
  (`AuditChain.RecordColumnIsNotCovered`).
- A clock that goes back can make the replay index forget an admission that is still inside the
  window (`ReplayIndex.ClockGoingBackBreaksIndex`); `ReplayIndex.IndexIsExactUnlessForgotten` is the
  exact condition, on clock readings only.
- An upload whose admission committed but whose reply was lost unlinks the ciphertext of a submission
  that exists (`research/vendorchain/pipeline.py:99-112`, reached by `BlobSafety.LostAdmissionHappens`).
  The exact condition for one id over a run is `BlobSafety.BlobIsKeptUnlessReplyLost`: the reply is
  lost and the same upload takes its next step; if it crashes before that, the file stays.
- The PNG walker takes the size of every IHDR chunk from the eight bytes after its type, so a late
  IHDR shorter than eight bytes is judged partly by the bytes that follow it. Acceptance still
  survives the insertion of a text chunk (`UniquePng.HeaderSurvives`).
- Recovery compares the journal row without its marker fields with the whole durable record, so a
  campaign with a measurement that itself uses a marker name is refused, even with an undamaged journal
  (`CampaignDirectory.MarkedMeasurementIsRefused`; the exact condition is `RecoveryProofs.RecoveryRestores`).
- A recovery that is interrupted after it set the old journal aside and before it replaced it cannot be
  taken up again (`Recoverer.RecoverTwice`).
- Processing compares the inventory it reads back with the scanned one as parsed JSON. If the bytes
  differ the receipt may bind bytes that were never signed, and delivery then refuses them at any time
  (`ReplacedInventory.ReplacedInventoryNeverCommits`). The exact condition is `Hardened.UnchangedDecides`:
  the read-back bytes are signed too, as they are when the file did not change
  (`Hardened.UnchangedCommitsUntilExpiry`).
- The checksum cannot see a swap of 0 and Z, but no place of the format allows both
  (`Gstin.AdjacentSwapIsInvalid`).


## Model

| member | source | states |
|---|---|---|
| `Store.Tables.Event` | research/vendorchain/store.py:68-74 | appends one event hashed onto the last one and touches no table but the log |
| `Store.Tables.Ingest` | research/vendorchain/store.py:81-94 | the whole new state is that of the admission transaction; a rejected admission, its purge included, leaves every table as it was |
| `Store.Tables.Claim` | research/vendorchain/store.py:96-103 | only an INGESTED row is claimed; version up by one, lease of 300 seconds, one event, the returned row is the stored one |
| `Store.Tables.Prepare` | research/vendorchain/store.py:105-111 | only the holder of the current version of a PROCESSING row succeeds; row, outbox entry and event change together or not at all |
| `Store.Tables.Finish` | research/vendorchain/store.py:118-132 | idempotent on the same transaction id, else only for the prepared snapshot and the same receipt hash; both tables and the log move together |
| `Store.Tables.FailProcessing` | research/vendorchain/store.py:134-137 | changes anything only for the current holder of a PROCESSING row |
| `Store.Tables.SelectExpired` | research/vendorchain/store.py:141-141 | returns every PROCESSING row whose lease has run out, once, in some order |
| `Store.Tables.RecoverExpired` | research/vendorchain/store.py:139-145 | the loop over the selected rows leaves the state of the recovery transaction, and counts them |
| `Store.Tables.VerifyAudit` | research/vendorchain/store.py:147-155 | true exactly when every event is linked to the one before it by its hash |
| `EventLog.OneMove` | research/vendorchain/store.py:68-145 | any transaction that moves one row one version and appends one event keeps the invariant of tables and log |
| `EventLog.RecoverRowsTables` | research/vendorchain/store.py:139-145 | the recovery loop moves exactly the selected rows back to INGESTED, each by one version, and leaves outbox and replay index alone |
| `EventLog.ApplyKeeps` | research/vendorchain/store.py:81-145 | every transaction keeps the invariant: version is the number of events, state is the fold of the events, the outbox follows the state, the chain is intact |
| `EventLog.LogRefinesTables` | research/vendorchain/store.py:68-145 | after any sequence of transactions the log refines the tables, for every id, and an audit of it succeeds |
| `EventDetails.EventsTellTheTables` | research/vendorchain/store.py:68-132 | after any transactions every event of the log still tells what the tables hold: the digests of the admission, the receipt hash of the preparation, transaction id and receipt hash of the commit |
| `Fencing.RunProgress` | research/vendorchain/store.py:96-145 | over any run versions never go back, and a row that was ever prepared never returns to an unprepared state |
| `Fencing.StaleWorkerIsFenced` | research/vendorchain/store.py:105-111 | a claim that any sweep has taken back prepares nothing and fails nothing, however many transactions follow |
| `Fencing.SweptIsFenced` | research/vendorchain/store.py:134-145 | the sweep itself moves the version past the one the holder has |
| `Fencing.PrepareSucceedsOnce` | research/vendorchain/store.py:105-111 | after a successful preparation no later one for that id succeeds, and the outbox insert never met an existing row |
| `Fencing.LatestEvent` | research/vendorchain/store.py:96-111 | in every reachable state a PROCESSING row was last moved by the claim that gave it its version |
| `Fencing.PrepareBelongsToLatestClaim` | research/vendorchain/store.py:96-111 | a preparation succeeds only for the latest claim of its id |
| `Fencing.SweepTakesLapsedClaims` | research/vendorchain/store.py:96-145 | after any transactions a sweep takes exactly the rows whose claim, the last one, was made more than 300 seconds before |
| `AuditChain.SameLastHashSameLog` | research/vendorchain/store.py:147-155 | two tables that verify and end in the same hash hold the same texts in the same order, given no collision among them and the genesis value not a digest |
| `AuditChain.TamperingIsDetected` | research/vendorchain/store.py:68-74 | against a known hash of the first events, an edited, shortened or reordered table cannot both verify and show that hash |
| `AuditChain.RecordColumnIsNotCovered` | research/vendorchain/store.py:74-74 | changing the record_id column of any event changes nothing the audit can see |
| `ReplayIndex.RunHoldsKept` | research/vendorchain/store.py:85-90 | whatever the clock does, after any run the index holds exactly the admissions that no later admission has overtaken by a whole window |
| `ReplayIndex.IndexDecides` | research/vendorchain/store.py:81-94 | whatever the clock does, a new id is refused exactly when an admission of the same digest inside the window was not overtaken |
| `ReplayIndex.IndexIsExactUnlessForgotten` | research/vendorchain/store.py:81-94 | at a given time the index decides every admission of a new id like the full history if and only if each digest seen inside the window has an admission there that was not overtaken |
| `ReplayIndex.IndexDecidesLikeHistory` | research/vendorchain/store.py:81-94 | a caller whose clock is not behind any earlier admission gets the decision of the full history, even if the clock went back between those admissions |
| `ReplayIndex.ClockGoingBackBreaksIndex` | research/vendorchain/store.py:86-88 | with a clock that went back there are three admissions after which the index admits what the history shows inside the window |
| `ProtocolSafety.NextSafe` | research/vendorchain/pipeline.py:77-224 | every step of any process, any crash, any lost reply, any sweep and any foreign ledger call keeps the global invariant and only grows the ledger |
| `ProtocolSafety.RunSafe` | research/vendorchain/pipeline.py:77-224 | the invariant holds over every run and no ledger record is ever changed on the way |
| `ProtocolSafety.CommittedMeansOnLedger` | research/vendorchain/pipeline.py:184-224 | in every state of every run a COMMITTED submission has a CONFIRMED outbox row and a ledger record with the same receipt hash and transaction id |
| `ProtocolSafety.LedgerIsWriteOnce` | research/vendorchain/ledger.py:23-33 | a ledger record stays exactly as it was for the rest of the run |
| `ProtocolSafety.EveryDeliveryReturnsTheSame` | research/vendorchain/pipeline.py:184-224 | two deliveries of one id that return at any two moments of a run return the same acknowledgement, and the ledger holds it |
| `ProtocolSafety.ReconciliationIsSound` | research/vendorchain/reconcile.py:5-34 | a finished reconciliation never reports DIVERGENCE, and what it reports CONSISTENT is committed on both sides with equal hash and transaction id |
| `LedgerWrites.OnlySubmissionsWrite` | research/vendorchain/pipeline.py:184-224 | whatever step changes the ledger is a payload from outside, or a delivery that submits its own receipt under its own, still unused id |
| `LedgerWrites.RunIsChecked` | research/vendorchain/pipeline.py:197-199 | over any run a delivery comes to submit only by a check of its own that passed: that very receipt verified, every recheck went through, and the submission was prepared at the version of the outbox row |
| `LedgerWrites.EveryWriteWasChecked` | research/vendorchain/pipeline.py:197-217 | every record on the ledger came from outside, or from a delivery whose own earlier check passed, rechecks of policy, ciphertext, inventory and evidence included |
| `LedgerWrites.NoWriteUnlessChecked` | research/vendorchain/pipeline.py:197-217 | from any moment of any run on, a process not yet past its check, at whose checks the receipt does not verify or a recheck fails, never puts a record of that id on the ledger, whatever interleaves |
| `LedgerWrites.NoRecordUnlessChecked` | research/vendorchain/pipeline.py:197-217 | if no process is past its check and no later check passes, the id gets no record at all, unless one is submitted from outside |
| `Origins.EverySubmissionWasGated` | research/vendorchain/pipeline.py:89-112 | every submission, in every state of every run, is in all its fields the one an upload asked for, and that upload had found the id free, passed the gate and created its file before its admission |
| `Origins.EveryReceiptWasWorkedFor` | research/vendorchain/pipeline.py:114-164 | every outbox row, in every state of every run, holds a receipt over the row its worker had claimed and over the results of a step in which the work went through |
| `Solo.DeliverKeeps` | research/vendorchain/pipeline.py:184-224 | a delivery that runs alone from any point ends returned or raised, with the invariant intact |
| `Solo.OldCommitIsRecovered` | research/vendorchain/pipeline.py:172-206 | if the ledger already holds the receipt, such a delivery finalizes the row under the recorded transaction id and returns it |
| `Solo.DeliveryCommits` | research/vendorchain/pipeline.py:207-224 | with a working ledger a prepared entry ends committed on both sides, and no other row, ledger record or file changes |
| `Solo.RetryReturnsTheSame` | research/vendorchain/pipeline.py:191-196 | a delivery of a committed record returns the recorded acknowledgement and changes nothing |
| `Solo.FailedCheckSubmitsNothing` | research/vendorchain/pipeline.py:207-217 | a prepared entry whose receipt verifies and whose recheck fails is refused, and neither ledger nor tables change |
| `Solo.FailedWorkPreparesNothing` | research/vendorchain/pipeline.py:116-165 | work that fails after its claim leaves no outbox row, and the submission failed two versions up; without a claim nothing changes |
| `Solo.GatedUploadAdmitsNothing` | research/vendorchain/pipeline.py:99-106 | a new document that the gate refuses, or whose file exists, leaves everything as it was |
| `Solo.RefusedUploadLeavesNothing` | research/vendorchain/pipeline.py:105-111 | an upload that the store refuses takes its own file away again and leaves everything as it was |
| `Solo.KnownUploadIsAnswered` | research/vendorchain/pipeline.py:94-98 | an upload of a known id changes nothing; it gets the id back for the same document and vendor and a refusal otherwise |
| `Solo.UploadCommits` | research/vendorchain/pipeline.py:77-224 | an admissible upload that meets no failure is committed on both sides at version 4, with its own ciphertext and receipt |
| `Solo.WaitingIsRepaired` | research/vendorchain/reconcile.py:18-27 | a waiting entry is reported CONSISTENT by a repair in which nothing fails |
| `Pipeline.LocalLedger.Lookup` | research/vendorchain/ledger.py:17-22 | the stored record, nothing, or a refusal when another receipt is stored |
| `Pipeline.LocalLedger.Submit` | research/vendorchain/ledger.py:23-33 | inserts only when the id is free; the answer is the stored row, refused when its hash is another one |
| `Pipeline.Blobs.DurableWrite` | research/vendorchain/pipeline.py:32-46 | creates the file only when there is none; an existing file is never touched |
| `Pipeline.Pipeline.Ingest` | research/vendorchain/pipeline.py:77-112 | a whole upload, exception paths included, ends in the state and result of its process run alone; a known id or a failed gate changes nothing |
| `Pipeline.Pipeline.Process` | research/vendorchain/pipeline.py:114-170 | a whole processing call, its failure path included, ends in the state of the worker process run alone; failed work adds no outbox row |
| `Pipeline.Pipeline.HistoricalCommit` | research/vendorchain/pipeline.py:172-182 | an acknowledgement only for a payload bound to the row in every field, and only the one of the record that is there |
| `Pipeline.Pipeline.Deliver` | research/vendorchain/pipeline.py:184-224 | a whole delivery ends in the state and result of the deliverer process run alone; a pending entry with a verifying receipt and a failed recheck gives none and changes nothing |
| `Pipeline.Pipeline.ReconcileEntry` | research/vendorchain/reconcile.py:7-31 | one row of the report: its verdict from what the ledger holds, when it counts as repaired, and which other entries stay untouched |
| `Pipeline.Pipeline.Reconcile` | research/vendorchain/reconcile.py:5-34 | one row for every outbox entry, none divergent; the totals are the numbers of suspicious and of repaired rows, and none is suspicious when everything works |
| `BlobSafety.NextKeepsBlob` | research/vendorchain/pipeline.py:89-112 | for each id alone: every step other than a clean-up of an admitted id keeps the submission with its own ciphertext file and the file with its one owner |
| `BlobSafety.BlobIsKeptUnlessReplyLost` | research/vendorchain/pipeline.py:89-112 | an id has its own ciphertext in every state of a run in which it is admitted if and only if no upload of the run admits it, loses the reply and then takes its next step |
| `BlobSafety.BlobIsKeptUnlessCleanedUp` | research/vendorchain/pipeline.py:108-112 | the step between cause and loss: the ciphertext of an admitted id is gone only if an upload unlinks it, however that came about |
| `BlobSafety.EverySubmissionHasItsCiphertext` | research/vendorchain/pipeline.py:32-46 | if no admission of this id loses its reply, the id has its ciphertext from its admission on, whatever uploads race for it, crash or fail for other ids |
| `BlobSafety.LostAdmissionLosesFile` | research/vendorchain/pipeline.py:99-112 | when an admission commits without its reply and its process takes its next step, the file of the admitted submission is gone |
| `BlobSafety.LostAdmissionHappens` | research/vendorchain/pipeline.py:99-112 | a run of one upload from the initial state ends with its id admitted and its file gone |
| `Chaincode.ReadSetIsComplete` | chaincode/evidence.go:66-291 | every contract function run on two states that agree on the keys it read gives the same result, reads and writes |
| `Chaincode.WritesAreLegal` | chaincode/vendor.go:81-86 | each write of a contract function is a fresh key, the revocation of the stored value, or the switch |
| `Contract.SmartContract.PutNew` | chaincode/vendor.go:81-86 | writes only where nothing is stored, and records the read |
| `Contract.SmartContract.EnableEvidenceOnly` | chaincode/evidence.go:66-77 | result, read set and write set are those of the simulation |
| `Contract.SmartContract.RegisterVendor` | chaincode/vendor.go:87-94 | result, read set and write set are those of the simulation |
| `Contract.SmartContract.RegisterWorkerKey` | chaincode/vendor.go:101-108 | result, read set and write set are those of the simulation |
| `Contract.SmartContract.RevokeWorkerKey` | chaincode/vendor.go:109-115 | result, read set and write set are those of the simulation |
| `Contract.SmartContract.RegisterEvidenceKey` | chaincode/evidence.go:79-95 | result, read set and write set are those of the simulation |
| `Contract.SmartContract.RevokeEvidenceKey` | chaincode/evidence.go:96-121 | result, read set and write set are those of the simulation |
| `Contract.SmartContract.RegisterPolicyDigest` | chaincode/evidence.go:122-134 | result, read set and write set are those of the simulation |
| `Contract.SmartContract.RevokePolicyDigest` | chaincode/evidence.go:135-163 | result, read set and write set are those of the simulation |
| `Contract.SmartContract.RecordHardened` | chaincode/vendor.go:116-142 | result, read set and write set are those of the simulation |
| `Contract.SmartContract.RecordEvidence` | chaincode/evidence.go:164-270 | result, read set and write set are those of the simulation |
| `Backing.EveryRecordIsBacked` | chaincode/evidence.go:164-270 | every record, in every state of every run, says what a receipt of that id says that a committed call of a submitter carried, whose signatures a registered key verifies, key and policy being unrevoked and inside their intervals at the time of the proposal |
| `Backing.EvidenceIsRecordedIff` | chaincode/evidence.go:164-270 | a v2 call succeeds if and only if its caller may, its texts are within size, the id is free, and receipt, signatures, key and policy are as required |
| `Backing.ComplianceIsRecordedIff` | chaincode/vendor.go:116-142 | the same of a v1 call, which also needs the contract not to be restricted to evidence |
| `Backing.RegistryIsAdministered` | chaincode/evidence.go:66-163 | every stored value was put there by a committed call whose caller may, keys, policies and the switch by an administrator; it is revoked if and only if an administrator's revocation of it has been committed |
| `Backing.PutSucceeds` | chaincode/evidence.go:66-134 | an administrator's registration under a free key, and the switch at any time, writes exactly what was asked for |
| `Backing.RevocationSucceeds` | chaincode/evidence.go:96-163 | an administrator's revocation of what is registered sets its flag and changes nothing else of it |
| `Mvcc.ValidatedIsSerial` | chaincode/evidence.go:66-67 | a transaction whose read versions are still current writes exactly what the same call would write if run on the current state, however old its endorsement |
| `Mvcc.FailingCannotCommit` | chaincode/evidence.go:66-67 | a call that would fail on the current state cannot pass validation, and ordering it changes nothing |
| `Mvcc.CommitsAreSerial` | chaincode/evidence.go:164-270 | over any run of endorsements and commits, every commit leaves the state its serial execution would leave |
| `Mvcc.RunEvolves` | chaincode/vendor.go:81-86 | over any run records and vendors never change, a revocation is never undone and the switch stays on |
| `Mvcc.RecordsAreWriteOnce` | chaincode/vendor.go:81-86 | a committed record is in every later state exactly as it was committed |
| `Mvcc.NoRecordAfterRevocation` | chaincode/evidence.go:96-163 | after a key or policy revocation has committed, no record that depends on it commits, not even one endorsed before |
| `Mvcc.NoV1RecordAfterEvidenceOnly` | chaincode/vendor.go:116-142 | after the switch has committed, no v1 record commits, whenever it was endorsed |
| `Gateway.CommitRecord` | research/gateway/commit.mjs:3-29 | every acknowledgement is a record on the ledger at that moment with the payload hash and the acknowledged transaction id; a recovered or query-only call writes nothing, and a record of this receipt that the first query finds is recovered, not submitted again |
| `Gateway.HoldsMeans` | research/gateway/commit.mjs:3-29 | what a query finds is a stored record of either kind with that receipt hash and transaction id |
| `Gateway.RecordsAgree` | research/gateway/commit.mjs:3-29 | a record that is there and a record of the same id after any further steps are the same receipt and transaction |
| `Gateway.CommitTwice` | research/gateway/commit.mjs:3-29 | two calls for one id, by any clients, with any steps of the network around and inside them: if both are acknowledged they name the same receipt and the same transaction |
| `EditDistance.NoCheaperScript` | research/vendorchain/sandbox.py:26-33 | no edit script between a stretch of the text and a front of the term costs less than the distance recursion says |
| `EditDistance.CheapestScript` | research/vendorchain/sandbox.py:26-33 | a script of that cost exists |
| `EditDistance.FreeIsLower` | research/vendorchain/sandbox.py:26-33 | the free-start recursion is at most the distance from any start |
| `EditDistance.FreeIsAttained` | research/vendorchain/sandbox.py:26-33 | some start attains it |
| `EditDistance.BestIsLeastCost` | research/vendorchain/sandbox.py:26-33 | best is the least cost of an edit script from any stretch of the text, the empty one included, to the term |
| `EditDistance.OccursIsZero` | research/vendorchain/sandbox.py:25-25 | the term occurs in the text exactly when best is zero |
| `OcrScore.Normalize` | research/vendorchain/sandbox.py:21-22 | exactly the ASCII lower-case letters and digits, in order: what stands at the increasing list of all their places |
| `OcrScore.NormalizedKeeps` | research/vendorchain/sandbox.py:21-22 | exactly one text lists the letters and digits of a text in order and nothing else |
| `OcrScore.Contains` | research/vendorchain/sandbox.py:25-25 | true exactly when the term is a stretch of the text |
| `OcrScore.NextRow` | research/vendorchain/sandbox.py:29-31 | one row of the table computed from the one before |
| `OcrScore.BestMatch` | research/vendorchain/sandbox.py:26-32 | the rolling rows end in the least cost over all stretches: attained by a script and undercut by none |
| `OcrScore.ThresholdIsOneInTen` | research/vendorchain/sandbox.py:33-33 | in exact arithmetic the score reaches 0.90 exactly when ten times best is at most the length of the term |
| `OcrScore.OcrScore` | research/vendorchain/sandbox.py:20-33 | refusals at 64 and 20000 characters; between the normalized texts the score times the length is the length less the least edits, 1 exactly for an occurrence, and 0.90 from one edit in ten on |
| `Jpeg.ParsePrints` | research/vendorchain/ingress.py:54-90 | data that the walk accepts is the print of the markers it read, and they are a well-formed list |
| `Jpeg.PrintParses` | research/vendorchain/ingress.py:54-90 | every print of a well-formed marker list is accepted and the same list is read back |
| `Jpeg.AcceptsExactlyPrints` | research/vendorchain/ingress.py:54-90 | the walk accepts exactly the prints of marker lists, each with one decomposition |
| `Jpeg.JpegStructure` | research/vendorchain/ingress.py:54-90 | the loop decides like the parser, with the same reason for a refusal, and accepts exactly the prints |
| `Jpeg.Round` | research/vendorchain/ingress.py:56-89 | one iteration ends the walk with its reason or goes on at a strictly later position |
| `Jpeg.ShapeOfItems` | research/vendorchain/ingress.py:54-90 | in an accepted list the end marker is last and nowhere else, there is no second start marker, entropy-coded data and its codes stand only in scans, and segments hold at most 65533 bytes |
| `Crc32.Compute` | research/load-trial.mjs:10-12 | the bitwise checksum loop computes the CRC recursion over the covered bytes |
| `Crc32.ChecksumOfEnd` | research/load-trial.mjs:10-12 | the checksum of an empty end chunk is the one that every PNG file ends in |
| `Crc32.WrongByteChangesChecksum` | research/vendorchain/ingress.py:38-39 | changing any one covered byte changes the checksum |
| `Png.ParsePrints` | research/vendorchain/ingress.py:29-52 | accepted data is the print of the chunks that were read, and they are a well-formed list |
| `Png.PrintParses` | research/vendorchain/ingress.py:29-52 | every print of a well-formed chunk list is accepted and the same list is read back |
| `Png.AcceptsExactlyPrints` | research/vendorchain/ingress.py:29-52 | the walk accepts exactly the prints of chunk lists, each with one decomposition |
| `Png.ShapeOfList` | research/vendorchain/ingress.py:29-52 | a well-formed list has at most 4096 chunks and an empty end chunk last and nowhere else |
| `Png.HeaderOfList` | research/vendorchain/ingress.py:42-45 | a well-formed file starts with a header of 13 bytes whose first two big-endian numbers are sides of at most 6000 and 16 million pixels |
| `Png.PngStructure` | research/vendorchain/ingress.py:29-52 | the loop decides like the parser, with the same reason for a refusal, and accepts exactly the prints |
| `PngDamage.DamagedFileIsRefused` | research/vendorchain/ingress.py:38-39 | an accepted file with one byte of any chunk's type, contents or checksum changed is refused |
| `UniquePng.HeaderSurvives` | research/vendorchain/ingress.py:44-46 | a late short header that is judged by bytes of the next chunk stays acceptable when a text chunk goes in before the end |
| `UniquePng.UniqueIsAccepted` | research/load-trial.mjs:7-15 | an accepted file with fewer than 4096 chunks stays accepted and its chunk list is the old one with one tEXt before the end chunk |
| `UniquePng.NoncesAreDistinguished` | research/load-trial.mjs:9-14 | distinct nonces give distinct files |
| `UniquePng.BuildChunk` | research/load-trial.mjs:9-13 | the buffer ends as the print of the text chunk, length, type, text and checksum |
| `UniquePng.MakeUnique` | research/load-trial.mjs:7-15 | refuses what lacks signature or end chunk, else splices the chunk in before the last twelve bytes |
| `PdfGraph.CoveredAlongPath` | research/vendorchain/ingress.py:122-161 | when the roots are covered and every seen reference is closed, everything reachable is covered |
| `PdfGraph.TotalOfSome` | research/vendorchain/ingress.py:134-148 | distinct indirect objects weigh no more than all of them, in whatever order they come |
| `PdfGraph.ReachableCloses` | research/vendorchain/ingress.py:137-171 | reachable are the trailer, every object in use in the cross-reference table, every object of an object stream, and with an object all it contains and refers to |
| `PdfContent.GetFinds` | research/vendorchain/ingress.py:137-139 | a look-up gives exactly the value at the first place of the key |
| `PdfContent.FaultMeans` | research/vendorchain/ingress.py:135-158 | an object passes every check if and only if no key and no direct /S or /Type of it is denied, an image has its sizes within limits, and a stream decodes and is harmless where it is XML |
| `PdfContent.ReachedIsCounted` | research/vendorchain/ingress.py:132-148 | nothing reachable counts for more than the trailer and all reachable indirect objects together |
| `PdfWalk.Walker.Check` | research/vendorchain/ingress.py:134-158 | the checks of one object in order, what they add to the budgets, and what a refusal rests on |
| `PdfWalk.Walker.Walk` | research/vendorchain/ingress.py:122-161 | from any point of a walk: what was counted is the object up to its references plus each newly followed object once; if nothing is refused all of it is covered and closed |
| `PdfWalk.Walker.WalkAll` | research/vendorchain/ingress.py:162-171 | trailer, listed objects and stream objects: all roots end covered or the walk is refused |
| `PdfWalk.WalkDocument` | research/vendorchain/ingress.py:114-171 | a finished walk means a harmless document within budget; a refusal is explained |
| `PdfWalk.FinishedIsAcceptable` | research/vendorchain/ingress.py:122-171 | after a finished walk every reachable object is without fault, every reachable reference resolves and was followed exactly once |
| `PdfWalk.ExplainedIsNotAcceptable` | research/vendorchain/ingress.py:108-176 | a document refused for any reason but depth could not have been accepted, budgets included |
| `PdfWalk.PdfGate` | research/vendorchain/ingress.py:108-176 | acceptance means: every reachable object, entry by entry, without active content, oversized image, undecodable or DTD-bearing stream, at most 20000 references and 16 MiB of streams, page limits met; every refusal is justified by the document |
| `Json.SameIsReflexive` | research/recover_journal.py:17-25 | a report is the same as itself |
| `Json.SameIsSymmetric` | research/recover_journal.py:17-25 | sameness up to roundoff does not depend on the order |
| `Json.SameWithoutNumbersIsEqual` | research/recover_journal.py:17-25 | where there are no numbers the same means equal |
| `Tolerance.CloseMeans` | research/recover_journal.py:24-24 | numbers are close exactly if they differ by at most a million-millionth of one or of the larger one |
| `Journal.LinesOfText` | research/recover_journal.py:44-52 | splitting a written journal gives back its lines, whatever follows |
| `Journal.CutText` | research/experiment.py:19-21 | cutting a journal at any byte leaves whole lines and at most one cut row |
| `Recovery.MarkersAreIgnored` | research/recover_journal.py:73-84 | the two marker fields change neither validity nor statistics nor the comparison with the record |
| `RecoveryProofs.SlotsAreDistinct` | research/experiment.py:170-173 | the schedule visits every slot once |
| `RecoveryProofs.CutJournalReads` | research/recover_journal.py:45-52 | a cut journal reads as the rows that survive the cut: those with every byte but perhaps the line end |
| `RecoveryProofs.LookupFinds` | research/recover_journal.py:53-58 | rows in distinct slots are all entered, each under its slot |
| `RecoveryProofs.KeptRowRebuilds` | research/recover_journal.py:63-89 | with its evidence intact a slot gets its row back, marked exactly when the journal had lost it, or is refused exactly when the row carries a marker name of its own |
| `RecoveryProofs.RecoveryRestores` | research/recover_journal.py:39-107 | whatever lines are dropped and wherever the tail is cut, recovery succeeds if and only if no row carries a marker name of its own; it then returns every original row in schedule order, marked exactly where the journal had lost it, and otherwise a record disagrees |
| `RecoveryProofs.WholeJournalRecovers` | research/recover_journal.py:73-78 | the same condition decides on an undamaged journal |
| `RecoveryProofs.SecondRecoveryFindsNothing` | research/recover_journal.py:39-96 | after any successful recovery a second one recovers nothing and keeps every row |
| `RecoverySoundness.RecoveryIsSound` | research/recover_journal.py:39-95 | whatever the journal and the evidence are, if recovery succeeds every journal line but a cut last one stands for one slot and is returned as it is, every other slot gets a row rebuilt from its record or measurement and marked with the digest of those bytes, and all rows agree with records, measurements and statistics |
| `Recoverer.ReadLines` | research/recover_journal.py:44-52 | the loop reads what the lines say and tolerates only an unfinished last line |
| `Recoverer.BuildLookup` | research/recover_journal.py:53-58 | the loop enters the rows by slot or stops with the first refusal |
| `Recoverer.RebuildRows` | research/recover_journal.py:59-89 | the loop gives the rows of all slots in order and the list of recovered slots, or the first failure |
| `Recoverer.Compute` | research/recover_journal.py:39-95 | the whole computation before anything is written |
| `Recoverer.Directory.RecoverJournal` | research/recover_journal.py:39-107 | nothing is written unless something was recovered; then the old journal is set aside once, the new one is the text of all rows, and the report follows, with an interruption possible after each write |
| `Recoverer.RecoverTwice` | research/recover_journal.py:95-104 | a second run returns zero exactly when the first had replaced the journal; interrupted between setting the old journal aside and replacing it, the first leaves a directory that every later run refuses |
| `CampaignDirectory.TrialIsKept` | research/experiment.py:185-198 | the row of any trial, failed or not, agrees with its record and its measurement |
| `CampaignDirectory.RowSaysTrial` | research/experiment.py:185-198 | the row of a trial says its slot and process and otherwise is its usable measurement, or the statement that it failed and why |
| `CampaignDirectory.RowIsUnmarked` | research/experiment.py:188-197 | a row carries a marker name exactly when the data of its trial does |
| `CampaignDirectory.CampaignIsUnmarked` | research/experiment.py:188-203 | the condition of recovery in terms of the measurements of a campaign |
| `CampaignDirectory.MarkedMeasurementIsRefused` | research/recover_journal.py:76-78 | a finished campaign of one trial whose measurement has a field journalRecovered, and whose whole journal recovery refuses |
| `CampaignDirectory.Run.RunSlot` | research/experiment.py:195-199 | the record is durable before the journal line begins; an interruption anywhere leaves the record ahead, never behind |
| `CampaignDirectory.RunCampaign` | research/experiment.py:170-208 | a campaign that ends leaves everything recovery relies on: one row a slot in order, with intact evidence and the statistics of those rows |
| `TrialSummary.SlotsTally` | research/experiment.py:170-173 | a shuffled schedule holds every variant exactly once in each warm-up and each measured trial |
| `TrialSummary.FinishedTallies` | research/experiment.py:39-52 | the rows of a finished campaign have exactly the declared numbers of measured trials and warm-ups for every variant |
| `TrialSummary.SummarizeVariant` | research/experiment.py:39-52 | the counts of one variant; successful and failed make up the measured ones, and none failed exactly when every measured row succeeded |
| `TrialSummary.PairsPartition` | research/experiment.py:63-68 | every expected trial is paired or missing and never both |
| `TrialSummary.PairsExchange` | research/experiment.py:63-68 | exchanging control and treatment negates every difference and misses the same trials |
| `TrialSummary.PairedDifferences` | research/experiment.py:55-75 | refused exactly when a measured slot occurs twice; otherwise the differences, treatment less control, of the rows of each trial in order, and the trials for which there is no such pair |
| `TrialSummary.DifferenceMeans` | research/experiment.py:59-69 | a trial has a difference exactly if a row of each variant measured it, and it is what the treatment reads more than the control |
| `LoadBurst.KindsPartition` | research/summarize_load_campaign.py:76-79 | every request is acknowledged or lost, and every acknowledged one has exactly one verdict |
| `LoadBurst.ReadRequests` | research/summarize_load_campaign.py:59-74 | accepted exactly when every request is sound and all ids differ; the acknowledged ones are kept |
| `LoadBurst.VerifyRequests` | research/summarize_load_campaign.py:51-82 | accepted exactly when the raw requests account for the burst, lost ones included |
| `LoadMeaning.BurstMeans` | research/summarize_load_campaign.py:24-48 | a line is sound exactly if it is one measured burst of a planned level whose requests add up, with verdicts and mean for what was confirmed |
| `LoadMeaning.RequestsMean` | research/summarize_load_campaign.py:51-82 | a file backs a line exactly if each number is the number of requests it stands for, every request is complete, and no id occurs twice |
| `LoadMeaning.TotalIsBetween` | research/summarize_load_campaign.py:79-81 | the latencies add up to between as many times the least and as many times the greatest |
| `LoadSummary.CheckLine` | research/summarize_load_campaign.py:111-120 | a journal line is taken exactly when it is a sound burst at a new level that either crashed or is backed by its request file |
| `LoadSummary.LineReflects` | research/summarize_load_campaign.py:111-121 | reading one line moves the fate of its own level and deployment and no other |
| `LoadSummary.ReadJournal` | research/summarize_load_campaign.py:104-121 | accepted exactly when the deployment is sound; the maps then say what the journals say |
| `LoadSummary.ListedPartition` | research/summarize_load_campaign.py:125-131 | three disjoint sets that cover the deployments split them exactly |
| `LoadSummary.SumsAreRaw` | research/summarize_load_campaign.py:135-140 | each reported sum is the sum over the raw requests of the observed deployments |
| `LoadSummary.SumsBalance` | research/summarize_load_campaign.py:135-140 | offered is level times deployments and confirmed plus failed; confirmed is the sum of the three verdicts |
| `LoadSummary.MakeGroup` | research/summarize_load_campaign.py:123-150 | one report group: deployments split into observed, crashed and missing as the journals say, and balanced sums |
| `LoadSummary.SummarizeTask` | research/summarize_load_campaign.py:102-150 | accepted exactly when every deployment of the variant is sound, with a group for every level |
| `LoadSummary.SummarizeCampaign` | research/summarize_load_campaign.py:89-152 | accepted exactly when levels and all variants are sound; then every variant and level has a group that splits and balances |
| `Gstin.CheckCompletes` | research/vendorchain/gstin.py:11-14 | the check character is the one character that brings the total to a multiple of 36 |
| `Gstin.SubstitutionIsCaught` | research/vendorchain/gstin.py:11-14 | changing one character changes the check character, for bodies of any length |
| `Gstin.SwapIsCaughtUnlessZeroZ` | research/vendorchain/gstin.py:11-14 | swapping two adjacent different characters leaves the check character as it is exactly when they are 0 and Z |
| `Gstin.CheckDigit` | research/vendorchain/gstin.py:7-14 | refuses exactly the bodies that are not fourteen base-36 characters, else computes the check character |
| `Gstin.ValidGstin` | research/vendorchain/gstin.py:16-20 | true exactly for well-formed numbers with the right check character and, if given, the expected PAN |
| `Gstin.ValidMeans` | research/vendorchain/gstin.py:5-20 | place by place what a valid number is, its weighted total with the check character being a multiple of 36 |
| `Gstin.KnownNumberIsValid` | research/collect_local_evidence.py:55 | the number that the measurements check is valid for its PAN: even places count once, odd places twice |
| `Gstin.OneWrongCharacterIsInvalid` | research/vendorchain/gstin.py:16-20 | no valid number is one substitution away from another, at any of the fifteen places |
| `Gstin.AdjacentSwapIsInvalid` | research/vendorchain/gstin.py:5-20 | no adjacent swap of different characters in a valid number is ever accepted: the format closes the checksum's one blind spot |
| `ProcessTree.Tree` | research/watch_resources.py:26-40 | exactly the sampled processes that descend from the root, cycles in the parent links included |
| `Evidence.DocumentLasts` | research/vendorchain/evidence.py:32-49 | a signed document that verified once verifies later exactly until it expires |
| `Evidence.ReceiptLasts` | research/vendorchain/evidence.py:140-163 | a receipt that verified once verifies later exactly until it expires |
| `Evidence.EvidenceRootBinds` | research/vendorchain/evidence.py:52-57 | one root means the same five digests and the same time |
| `Evidence.HashTree` | research/vendorchain/evidence.py:60-76 | the loop hashes the list of regular files, refusing symlinks and empty trees |
| `Evidence.TreeHashBinds` | research/vendorchain/evidence.py:60-76 | one tree hash means the same files with the same contents |
| `Evidence.FilesAreListed` | research/vendorchain/evidence.py:60-76 | the hashed list is that of all regular files with path and contents, in order |
| `Evidence.PolicyLasts` | research/vendorchain/evidence.py:83-119 | with the files unchanged the policy loads and decides the same until its bundle expires, and not at all from then on |
| `Hardened.ReceiptBinds` | research/vendorchain/hardened.py:158-167 | one receipt hashes one attestation, snapshot, row, ciphertext, inventory, list of artifact files and policy |
| `Hardened.CheckedIsBound` | research/vendorchain/pipeline.py:197-217 | the checks before delivery say that what they read, each at its own moment, is what the receipt hashes, at both reads of the policy and of the inventory |
| `Hardened.DeliveryIsBound` | research/vendorchain/hardened.py:107-207 | a payload made by processing passes the checks only if every read of the delivery, at whatever moment, found what processing had read and made |
| `Testimony.DocumentMeans` | research/vendorchain/evidence.py:32-49 | a document verifies exactly if it is canonical, under its domain, and signed by an unrevoked key of the role, both in force |
| `Testimony.ReceiptMeans` | research/vendorchain/evidence.py:140-163 | a payload verifies as a receipt exactly if it carries that receipt for its own id under the right digests, and a decision key in force has signed the receipt and the snapshot digest |
| `Testimony.RootMeans` | research/vendorchain/evidence.py:52-57 | the root is right exactly if it hashes the five digests in their order and the big-endian time |
| `Testimony.CommitRestsOn` | research/vendorchain/hardened.py:182-207 | a payload may go to the ledger if and only if decision, identity, policy and provenance keys in force have signed receipt, attestation, policy and inventory, the engine decides again as the receipt says, and every digest agrees with what is read |
| `Hardened.UnchangedDecides` | research/vendorchain/hardened.py:182-207 | with nothing changed since the inventory was read back, delivery may commit if and only if the bytes read back are signed and each check comes before the expiry of the receipt, attestation, policy bundle or provenance key it looks at |
| `Hardened.UnchangedCommitsUntilExpiry` | research/vendorchain/hardened.py:182-207 | with nothing changed but the time since processing, the verified inventory included, every recheck passes and delivery may commit if and only if each check comes before the expiry it looks at |
| `ReplacedInventory.ReplacedInventoryNeverCommits` | research/vendorchain/hardened.py:134-140 | a processing that succeeds on an inventory file replaced after its verification by unsigned bytes that parse alike; with nothing changed afterwards and nothing expired, delivery refuses its payload |
| `HardenedPipeline.Worker.BuildInventory` | research/vendorchain/hardened.py:31-50 | a tree that changed during the scan is refused; otherwise the kept inventory is signed and bound to the tree hash |
| `HardenedPipeline.Worker.Decide` | research/vendorchain/evidence.py:93-119 | the verdict is that of the policy loaded for it, on facts with the given identity state and inventory |
| `HardenedPipeline.Worker.Issue` | research/vendorchain/hardened.py:158-172 | the receipt is complete and verifies, or nothing is issued |
| `HardenedPipeline.Worker.Process` | research/vendorchain/hardened.py:107-180 | a payload is returned only with evidence of what it binds, every check having held at its own moment; identity state and every entry of the facts report the checks they are named after, and the decision is the verdict of the engine on them; both files are created once and a failure retains no evidence |
| `HardenedPipeline.Worker.ValidatePending` | research/vendorchain/hardened.py:182-207 | none exactly when every recheck holds |
| `HardenedPipeline.Worker.ValidateEvidence` | research/vendorchain/hardened.py:184-203 | none exactly when attestation, snapshot and verdict hold, each at its own moment |
| `HardenedPipeline.Worker.CheckBeforeCommit` | research/vendorchain/pipeline.py:197-217 | none exactly when the payload may go to the ledger, each read taking place at its own moment |
| `HardenedPipeline.Worker.Deliver` | research/vendorchain/pipeline.py:197-222 | if the ledger gains a record, every check held, the record is this payload's under its free id, and everything the delivery read was what the payload had been made of |
| `HardenedPipeline.ReceiptLedger.Submit` | research/vendorchain/ledger.py:23-33 | verifies the receipt at its own time and inserts only when the id is free; an id is returned only for this receipt |

## Left out

- Pipeline.Pipeline.Process: the local work (decryption, sandbox, scan, policy) is one choice of success or failure here; its bindings are in HardenedPipeline.
- HardenedPipeline.Worker.Process: claim, prepare and failure are those of the store model.
- Hardened.UnchangedCommitsUntilExpiry: the registry, the policy file and the OPA version are among what is unchanged; a revocation counts as a change.
- HardenedPipeline.Worker.Deliver: starts from a pending row; the outbox, the state checks and finishing are those of the protocol model.
- TrialSummary.PairedDifferences: the statistics over the differences are not modelled.
- LoadSummary.MakeGroup: throughput, failure fraction, latency and evidence kinds are not modelled.
- LedgerWrites.EveryWriteWasChecked: a late commit of a delivery's own submission counts as coming from outside.
- PdfWalk.PdfGate: a reference resolves to a direct object, as resolved objects are given; a depth refusal is explained by a path of 49 containment steps, but whether such a path is met depends on the visiting order, so it is not shown to exclude acceptance.
- OcrScore.OcrScore: case folding is done before; scores are exact reals, so rounding near 0.90 is not modelled.
- LoadSummary.SummarizeCampaign: manifest verification, Student-t summaries and the export are not modelled; journals are given as parsed lines without the blank ones.
- RecoveryProofs.RecoveryRestores: the statistics compared are one function of the rows as the summaries see them; their counts and pairings are in TrialSummary, the Student-t numerics nowhere; numbers are within float range.
- Recoverer.Directory.RecoverJournal: the recovery report, the exports and the manifest written afterwards are not modelled.
- TrialSummary.SummarizeVariant: counts only; the per-metric summaries and the protocol flag are not modelled.
- CampaignDirectory.RunCampaign: starting, killing and timing of trial processes are inputs.
- Store.Tables.SelectExpired: SQL leaves the order of the selected rows open, and so does the model.
- Contract.SmartContract.RecordEvidence: endorsement sees the proposal time; validity intervals are not checked again at commit, and the model proves nothing about that.
- Gateway.CommitRecord: the gateway's matching of the "record not found" text is the outcome Absent; other errors are Failed.
- Jpeg.JpegStructure and Png.PngStructure: the decode by the imaging library afterwards, container checks and animation checks.
- Crc32.Compute: the gate's own checksum comes from zlib and is taken to be the same CRC.
- Int64 wrap-around in the contract: times that reach the arithmetic are bounded by earlier checks.
- Base64, hex and JSON text: payloads are modelled decoded; canonical form is an injective function.
- Pipeline.run and the command line: the sequence ingest, process, deliver is the composition of the three processes.
- Buffer wiping, key management, Vault, PostgreSQL adapters, HTTP servers, load generation and its client statistics, plotting, environment collection, corpus generation.
- `process_tree` reading of /proc: the sampled parent links are an input.
