# A verified model of SentinelGRC's stateful cores

This project models the parts of SentinelGRC whose correctness depends on more
than one function: ordered lease delivery of governance events, the finding
lifecycle and its hash-chained event log, three crash-recovery protocols, the
job queue with its heartbeat, two hand-written Dockerfile scanners, and the
hash-chained text logs over canonical JSON. `dafny verify dfyconfig.toml`
checks all of it.

Code that changes state step by step is a class or a method with loops, proved
against a specification function; the results are lemmas about those functions
and about every run of the transition systems built from them.

| file | what it models |
|---|---|
| `Basics.dfy`, `BuildkitText.dfy` | shared types, whitespace, digests |
| `CanonicalJson.dfy` | JSON values, json.dumps, normal forms, unique readability |
| `ChainedLog.dfy`, `LogFiles.dfy` | AuditLog and the evidence ledger |
| `LeaseQueue.dfy`, `DeliveryRuns.dfy` | the leased row tables and every run of them |
| `OutboxDelivery.dfy`, `AuditArchive.dfy`, `AuditDelivery.dfy`, `Drain.dfy` | the two queues, their publishers and workers, the load baseline's drain |
| `GovernanceEvents.dfy`, `Lifecycle.dfy`, `Governance.dfy`, `GovernanceRuns.dfy`, `GovernanceCalls.dfy` | events, the fold of a log, the public calls, reachable states, the object |
| `Backfill.dfy`, `ExportBackfill.dfy` | the repair of old event and export tables |
| `EndToEnd.dfy`, `ArchivedEvents.dfy` | governance calls and both delivery queues interleaved, and what the archive then holds |
| `MiniSoar.dfy`, `MiniSoarBridge.dfy` | the Mini-SOAR import under crashes |
| `Publication.dfy`, `PublicationStore.dfy` | evidence publication and the reconciliation sweep |
| `JobQueue.dfy`, `JobLease.dfy`, `Heartbeat.dfy`, `PipelineWorker.dfy` | the two job queues, the lease renewal and the worker that settles a claimed job |
| `StagingRequests.dfy`, `StagingValidator.dfy` | the four validation phases as a resumable client, and the requests it may lose |
| `BuilderFlags.dfy`, `DockerLines.dfy`, `DockerLayout.dfy`, `ContainerReferences.dfy` | the Dockerfile scanners and the image-reference check |

## What is a parameter

- SHA-256 is any function from text to text; results say "equal, or these two
  texts collide" instead of assuming that it is injective. Where its shape
  matters it writes 64 hexadecimal digits (`Hexadecimal`) or text without line
  separators (`PlainDigest`).
- `json.loads` is any function that reads back what `json.dumps` writes and
  rejects a proper prefix of an object's text (`Reads`). `StrictLoadsReads` and
  `AssumptionsMet` prove that these assumptions can be met. Numbers are their lexemes, and Python's `==`
  between a number and an integer is a parameter.
- Clock readings are arguments and need not increase unless a theorem says so.
  Fresh uuid4 values are drawn from outside the set used so far.
- Every SQL transaction, every append to a log under its file lock, every
  `os.replace`, and every public governance call is one atomic step.
- Python's `\w`, `str.lower` on image names and `date.fromisoformat` are
  function parameters.

## Where the code does less than its comments or documentation suggest

These are stated and proved as exact conditions.

- `accepted_payloads.evidence_id` is a 24-digit prefix without a uniqueness
  constraint: committed evidence keeps its file in every run exactly when no
  two accepted bodies share an id with different digests (`CommittedHasFile`).
- A pending record whose acceptance time lies ahead of the sweep's clock is not
  healed by the start-up sweep, even with no grace (`StartupSweep`,
  `ClockBehindWitness`).
- `AuditLog` writes non-ASCII text raw and reads it back with `splitlines`:
  appending keeps the log verifying exactly when the record holds no U+0085,
  U+2028 or U+2029 (`AppendVerifies`, `LineSeparatorWitness`).
- `build_evidence` lets its extra fields replace `previous_hash` or
  `record_hash`; the ledger then verifies only if the former names the head
  all the same and the latter leads to a digest clash (`EvidenceVerifies`).
- The audit queue's `fail` is fenced by the token but not by the lease, the
  outbox queue's by both (`FailFences`).
- The load baseline's own validator refuses a reconciliation when two different
  maps' canonical texts share a digest (`ReconciliationValidates`).
- The SQLite queue lets a worker act on an older claim of a job it holds by a
  newer one; the PostgreSQL queue does not (`FencesAgree`, `OlderClaimWitness`).

## Model

| member | source | states |
|---|---|---|
| CanonicalJson.PrintPrefix | audit_log.py:54-55 | two JSON texts that agree up to what follows them come from the same value: a printed value is uniquely readable |
| CanonicalJson.CanonicalDeterminesValue | audit_log.py:41-55 | canonical texts are equal if and only if the two values hold the same keys and values at every depth, in any insertion order |
| CanonicalJson.NormalizeIdempotent | audit_log.py:41-51 | normalising a value twice gives what normalising it once gives |
| CanonicalJson.CanonicalOneLine | audit_log.py:54-68 | a canonical text is one line for splitlines exactly when non-ASCII is escaped or no string in it holds U+0085, U+2028 or U+2029 |
| ChainedLog.FindEventFirst | audit_log.py:89-99 | of several records with one id it is the first that is found |
| ChainedLog.SameHeadSameHistory | audit_log.py:63-79 | two verified chains with equal last digests hold the same records on the hashed fields, whatever their lengths, unless two of their texts collide or one hashes to the genesis value |
| ChainedLog.AppendVerifies | audit_log.py:101-124 | appending a sealed record to a verified log keeps it verified if and only if it names the head and is read back as one line; the records are then the old ones and this one |
| ChainedLog.LineSeparatorWitness | audit_log.py:101-124 | an entry whose target is U+2028 is appended and leaves a log that does not verify |
| ChainedLog.AppendOnceSound | audit_log.py:134-160 | append_idempotent fails only on an id bound to other content, adds a record exactly when the id is new, and keeps the log verified with unique ids exactly when nothing is added or the entry is free of line separators |
| ChainedLog.EvidenceDigest | sentinelgrc.py:71-92 | a record built over an extra record_hash carries a digest of a text other than the one verification hashes |
| ChainedLog.EvidenceVerifies | sentinelgrc.py:71-118 | an appended ledger record keeps the ledger verified exactly when the extra fields leave previous_hash alone and, if they hold a record_hash, the digest of all the fields' text equals that of the different text without record_hash |
| LogFiles.VerifyText | sentinelgrc.py:95-118 | the verification loop accepts exactly the texts whose every line is an object linked to the one before |
| LogFiles.AuditLog.Verify | audit_log.py:180-182 | true exactly for a verifying log |
| LogFiles.AuditLog.LastHash | audit_log.py:81-87 | the genesis value for a blank log, the head digest of a verified one, an error otherwise |
| LogFiles.AuditLog.FindEvent | audit_log.py:89-99 | the first record with the id in a verified log, an error for an invalid one |
| LogFiles.AuditLog.AppendIdempotent | audit_log.py:134-160 | does on the file what AppendOnce specifies, and returns a record saying what the caller asked |
| LogFiles.EvidenceLedger.VerifyLedger | sentinelgrc.py:95-118 | true exactly for a verifying ledger |
| LogFiles.EvidenceLedger.AppendEvidence | sentinelgrc.py:150-171 | refuses an invalid ledger unchanged, otherwise appends one record naming the head |
| LogFiles.EvidenceLedger.FindRecord | sentinelgrc.py:136-148 | the first record with the input hash, none if there is none, an error for an invalid ledger |
| LeaseQueue.MetricsPartition | outbox_delivery.py:352-373 | delivered, pending and dead counts add up to the table when no row is both delivered and dead |
| LeaseQueue.FirstUnique | outbox_delivery.py:232-244 | the claim order (created_at, then id) never ties: at most one row is the first candidate |
| LeaseQueue.FailFences | audit_delivery.py:136-166 | on an accepted policy, the outbox fail changes the row exactly while the caller's lease runs, the audit fail exactly while the caller's token is on the row |
| LeaseQueue.ExpiredAuditFailWitness | audit_delivery.py:145-166 | a claim whose lease ran out that the audit queue still fails and the outbox queue calls stale |
| LeaseQueue.FailedRowReturns | outbox_delivery.py:305-335 | after a failed delivery a retried row is claimable exactly from the end of its delay, a dead one never, and a requeued one at once with its attempts counted afresh |
| LeaseQueue.FailedExportReturns | audit_delivery.py:136-206 | the same for the audit queue, whose fail needs no unexpired lease |
| DeliveryRuns.PublishedInOrder | outbox_delivery.py:224-303 | in every run, the first publications of a finding's rows are 1, 2, 3, ... without a gap, every publication is a produced row's exact body, and a delivered row has been published |
| DeliveryRuns.SameIdSameBody | outbox_delivery.py:102-111 | in every run, publications under one id are identical, so the publisher never sees an identity collision |
| DeliveryRuns.Fenced | outbox_delivery.py:273-335 | in every reachable state at most one row per finding is locked, no row is both delivered and dead, and a snapshot whose token is still in the table is the present row |
| DeliveryRuns.StaleCallsChangeNothing | outbox_delivery.py:273-335 | once a worker's token has left the table, its acknowledge and fail calls change no row in any continuation of the run |
| DeliveryRuns.NothingLost | outbox_delivery.py:399-416 | along any run no row disappears or changes its event, and a delivered row never changes at all |
| DeliveryRuns.DeadBlocksLaterRows | outbox_delivery.py:232-244 | while it is not requeued a dead row stays as it is and no later row of its finding is locked, held, delivered or published |
| DeliveryRuns.FrontierProgress | audit_delivery.py:34-52 | an unfinished finding has exactly one least undelivered row, everything before it is published, and unless dead it is claimable exactly once its delay and any old lease are over |
| OutboxDelivery.FromItemAccepts | outbox_delivery.py:48-85 | from_item accepts exactly the rows whose payload is the canonical text of an object with the row's metadata, within the limits, and hands that text on |
| OutboxDelivery.MemoryOutboxPublisher.Publish | outbox_delivery.py:99-111 | stores the body under its id, refuses another body under the same id, leaves everything else |
| OutboxDelivery.GovernanceOutboxQueue.Claim | outbox_delivery.py:224-271 | takes the first candidate with a new lock and one more attempt, nothing exactly when no row is claimable, an error for a blank worker or no lease |
| OutboxDelivery.GovernanceOutboxQueue.Acknowledge | outbox_delivery.py:273-303 | delivers the row exactly while the caller holds it, repeats an earlier answer for a delivered row, refuses a foreign receipt |
| OutboxDelivery.GovernanceOutboxQueue.Fail | outbox_delivery.py:305-335 | retries or kills the row under an unexpired lease, otherwise stale and unchanged |
| OutboxDelivery.GovernanceOutboxQueue.ReadMetrics | outbox_delivery.py:352-373 | the three counters, which partition the table, the retrying rows among the waiting ones, and the age of the oldest waiting row |
| OutboxDelivery.GovernanceOutboxQueue.RequeueDead | outbox_delivery.py:399-416 | revives exactly a dead undelivered row under the exact confirmation |
| OutboxDelivery.OutboxWorker.RunOnce | outbox_delivery.py:427-456 | one turn: empty exactly when nothing is claimable; otherwise the first candidate ends delivered with its text in the sink, waiting or dead after the broker was unreachable, dead as unpublishable, or still locked because the lease ran out |
| AuditArchive.DecimalInteger | audit_archive.py:85-100 | the numeral written for a sequence is read back as that integer |
| AuditArchive.MemoryAuditArchive.PersistEvent | audit_archive.py:170-181 | stores create-only under the event's key and succeeds exactly when what is stored has the event's digest |
| AuditArchive.EventTextParts | audit_archive.py:125-136 | equal hashed texts come from equal previous hashes and equal bodies |
| AuditArchive.ObjectKeyInjective | audit_archive.py:147-154 | an object key names one finding digest, sequence, event id and event hash |
| AuditArchive.SameKeySameEvent | audit_archive.py:157-167 | two accepted events under one key agree on every field, or two texts collide |
| AuditDelivery.AuditExportQueue.Claim | audit_delivery.py:20-104 | takes the first candidate with a new lock and one more attempt, nothing exactly when no row is claimable |
| AuditDelivery.AuditExportQueue.Acknowledge | audit_delivery.py:106-134 | archives the row exactly while the caller holds an unexpired lease |
| AuditDelivery.AuditExportQueue.Fail | audit_delivery.py:136-166 | retries or kills the row under the caller's token even after the lease ran out |
| AuditDelivery.AuditExportQueue.RequeueDead | audit_delivery.py:184-206 | revives exactly a dead unarchived row under the exact confirmation |
| AuditDelivery.AuditExportWorker.RunOnce | audit_delivery.py:222-248 | one turn: empty exactly when nothing is claimable; otherwise archived with the object stored, retried or dead when refused, or still locked |
| Drain.WaitingIsClaimable | outbox_delivery.py:232-244 | with no dead or locked row and all delays over, a waiting row means some claimable row |
| Drain.DrainOutbox | load_soak_baseline.py:161-180 | delivers exactly one waiting row per turn until none is left or the bound is hit, and the sink then holds exactly those rows' payloads |
| Drain.ExactIffEqual | load_soak_baseline.py:278-283 | delivery is reported exact if and only if the sink's digest map is the expected map, of the expected size |
| Drain.CanonicalMapInjective | load_soak_baseline.py:102-103 | the canonical text of a digest map determines the map |
| Drain.ReconciliationValidates | load_soak_baseline.py:286-301 | every reconciliation passes the validator, except exactly when two different maps' canonical texts share a digest |
| Drain.DrainReconciles | load_soak_baseline.py:148-180 | after a complete drain, delivery is exact exactly when nothing was delivered before and the row count is the expected one |
| GovernanceEvents.VerifyStoredChain | governance_core.py:856-876 | over any stored rows the loop answers true exactly when every row's details parse, it names its predecessor's hash and carries that of its own body, and raises exactly when the first failing row's details do not parse |
| GovernanceEvents.StoredChain | governance_core.py:428-436 | rows that store events verify exactly when the events are chained |
| GovernanceEvents.SameHeadSameLinks | governance_core.py:856-876 | two verified chains with equal last hashes hold the same hashed bodies, whatever their lengths, or two hashed texts collide |
| GovernanceEvents.SameHashSameRows | governance_core.py:856-876 | the same for stored rows with arbitrary details |
| GovernanceEvents.OutboxAccepts | outbox_delivery.py:48-85 | from_item accepts the outbox row of an event within the size and length limits |
| GovernanceEvents.ExportAccepts | audit_archive.py:157-167 | serialize_event accepts the event read back from its export row, within the limits |
| Lifecycle.LegalReached | governance_core.py:476-764 | a log of permitted events holds the approvals, starts, submissions and checks its present status stands for |
| Governance.StripBetween | governance_core.py:362-365 | stripping returns exactly the text between the outer blanks |
| Governance.RequiredTextIs | governance_core.py:362-369 | the accepted value is the text between the outer blanks, and exactly blank and overlong input is refused |
| Governance.Latest | governance_core.py:401-411 | the row with the greatest sequence, none exactly for an empty log |
| GovernanceRuns.IdsGrow | governance_core.py:426-435 | a fresh event id keeps event ids unique across all findings |
| GovernanceRuns.PlanPermitted | governance_core.py:506-807 | a call that passes its checks appends an event permitted after the finding's present state, the new row is the old one with that event applied, and an approval or rejection is never by the risk owner |
| GovernanceRuns.NextKeepsInv | governance_core.py:397-504 | every call, failed or not, and every delivery step keeps rows folds of their logs, logs numbered and chained, event ids unique, and both row tables in one-to-one correspondence with the events |
| GovernanceRuns.RowIsFold | governance_core.py:476-807 | in every reachable state a finding's status, severity, control, asset, treatment, reason, action owner, implementer and submitter are the fold of its events, which are numbered 1..n, chained and permitted |
| GovernanceRuns.OneRowPerEvent | governance_core.py:427-474 | in every reachable state each event has exactly one outbox row and one export row, both with its payload |
| GovernanceRuns.BothQueuesAccept | governance_core.py:444-474 | in every reachable state both rows of an event within the limits pass from_item and serialize_event |
| GovernanceRuns.DecisionsIndependent | governance_core.py:574-591 | in every run each approval or rejection in a log was made by someone who was not the finding's risk owner at that moment |
| GovernanceRuns.RefusalIsCollision | governance_core.py:418-436 | in a reachable state the unique event hash refuses a call's insert only when SHA-256 collides on the new event's text and a different logged one |
| GovernanceRuns.ClosedMeansDueProcess | governance_core.py:574-764 | a closed finding had an approved acceptance, or was approved, started, evidenced and passed a check by someone other than its implementer and submitter, in this order, and the approver did not own the risk when approving |
| GovernanceCalls.GovernanceCore.InsertEvent | governance_core.py:397-474 | appends the next numbered, chained event and its two rows, or nothing when the hash is taken |
| GovernanceCalls.GovernanceCore.Mutate | governance_core.py:476-504 | writes the row and its event together or leaves everything as it was |
| GovernanceCalls.GovernanceCore.CreateFinding | governance_core.py:506-529 | does what the call's specification says, or fails with nothing changed |
| GovernanceCalls.GovernanceCore.AssessRisk | governance_core.py:531-552 | the same, from open or rejected to risk assessed |
| GovernanceCalls.GovernanceCore.ProposeTreatment | governance_core.py:554-572 | the same, from risk assessed to pending approval |
| GovernanceCalls.GovernanceCore.ApproveTreatment | governance_core.py:574-591 | the same, deciding a pending treatment, never by the risk owner |
| GovernanceCalls.GovernanceCore.StartAction | governance_core.py:593-606 | the same, from approved to in progress |
| GovernanceCalls.GovernanceCore.SubmitEvidence | governance_core.py:608-733 | the same, from in progress to pending verification; the same evidence again changes nothing |
| GovernanceCalls.GovernanceCore.Verify | governance_core.py:735-749 | the same, never by the implementer or the evidence submitter |
| GovernanceCalls.GovernanceCore.Close | governance_core.py:751-764 | the same, from verified or accepted to closed |
| GovernanceCalls.GovernanceCore.UpsertFinding | governance_core.py:766-807 | creates once, then records reassessments of the same control and asset |
| GovernanceCalls.GovernanceCore.VerifyChain | governance_core.py:856-876 | true exactly when the stored log of the finding is chained |
| Backfill.NoRevisit | governance_core.py:290-295 | following unique hashes never visits a row twice, so the loop ends |
| Backfill.BackfillSequences | governance_core.py:275-302 | a fully numbered table is left alone; otherwise each row gets its place in the order that follows the chain and then lists the rest, and nothing else of it changes |
| Backfill.ShuffledChainRestored | governance_core.py:275-302 | the rows of a valid chain in any order end with their true positions 1..n, the chain in that order verifies, and the next pass leaves it alone |
| ExportBackfill.BackfillExports | governance_core.py:305-342 | afterwards every event has exactly one export row with its payload, existing rows are untouched, and a complete table is unchanged, provided the ids computed for the new rows clash with nothing |
| EndToEnd.RunKeepsInv | governance_core.py:397-474 | every interleaving of calls and both kinds of workers keeps the governance and delivery invariants on the shared tables |
| EndToEnd.EventsReachBothSinksInOrder | governance_core.py:427-474 | in every such run each finding's events first reach the broker and the archive in the order 1, 2, 3, ..., none before it is logged, and everything sent is a logged event's payload |
| ArchivedEvents.KeyNamesEvent | audit_archive.py:147-167 | the key an accepted payload is stored under is built from its event's own finding, sequence, id and hash |
| ArchivedEvents.ArchiveHoldsEveryEvent | audit_archive.py:170-181 | in every run of calls and workers the archive holds each archived event's exact text under that event's own key, so no archiving call meets other content there |
| MiniSoar.AppendOk | scripts/bridge_minisoar.py:235-245 | appending an imported event to the log never fails, binds its id to its content and leaves the other events as they were |
| MiniSoar.ImportKeepsDb | state_store.py:373-487 | a new import keeps event ids computed, findings and hashes unique, and the reassessment count one less than the number of distinct evidence hashes |
| MiniSoar.ExactlyOnce | scripts/bridge_minisoar.py:225-251 | over every run with crashes and replays the log verifies with at most one record per event id, delivered events are logged, counts match distinct hashes, and every completed run's event is logged once with the recorded content |
| MiniSoar.AppendNeverConflicts | audit_log.py:134-160 | in every run the append of an imported event reports no conflict and no other error |
| MiniSoar.RetryCompletes | scripts/bridge_minisoar.py:225-251 | after any crash, importing, appending and marking again completes the run |
| MiniSoarBridge.StateStore.RecordImport | state_store.py:373-487 | the transaction does what Import specifies, or fails with nothing changed |
| MiniSoarBridge.StateStore.MarkAuditDelivered | state_store.py:489-506 | marks a known event once, keeping the first delivery time |
| MiniSoarBridge.RunBridge | scripts/bridge_minisoar.py:225-251 | the three steps in sequence: each error leaves exactly the steps before it in place |
| Publication.CommittedHasFile | state_store.py:79-84 | committed evidence has its verified file in every run over a set of bodies if and only if no two of them share an evidence id with different digests |
| Publication.ClashRun | scripts/ingestion_api.py:327-346 | two such bodies sent one after the other leave a committed record whose file is gone |
| Publication.ResendCommits | scripts/ingestion_api.py:323-360 | sending a request again after any crash ends with its one record committed and its file in place |
| Publication.WorkerReadsCommitted | scripts/pipeline_worker.py:178-197 | in every reachable state, whatever was done to the files and whether or not ids are unique, a managed read succeeds exactly when the row it looked up is committed and the bytes have that row's digest, which is an accepted body's; with unambiguous ids that row is the only one |
| Publication.AlteredFileRefused | scripts/pipeline_worker.py:193-196 | a managed file whose bytes no longer have the row's digest is refused |
| PublicationStore.PublicationState.BeginPayload | state_store.py:173-187 | reserves a new payload as pending and leaves a known one as it is |
| PublicationStore.PublicationState.CommitPayload | state_store.py:189-197 | commits exactly the record with this hash and id |
| PublicationStore.PublicationState.FindPayload | state_store.py:206-227 | some row with the id, none exactly when there is none |
| PublicationStore.PublicationState.PersistValidatedBody | scripts/ingestion_api.py:323-360 | duplicate exactly for a committed payload, an error for a pending one under another id, otherwise file and record end in place |
| PublicationStore.PublicationState.ReconcilePending | publication_reconciliation.py:74-141 | commits only listed candidates, all of them when ids are unique, changes nothing else, and returns exactly their ids |
| PublicationStore.StartupSweep | scripts/ingestion_api.py:472-489 | a pending record with a verified file is committed by the start-up sweep if and only if its acceptance time is not ahead of the clock |
| PublicationStore.ClockBehindWitness | publication_reconciliation.py:87-88 | a record accepted at 10, with its file in place, is left pending by a sweep whose clock says 5 |
| JobQueue.FirstReady | job_queue.py:53-60 | the least ready job, none exactly when no job is ready |
| JobQueue.SQLiteJobQueue.EnqueueJob | job_queue.py:39-47 | one pending job per path |
| JobQueue.SQLiteJobQueue.ClaimJob | job_queue.py:49-75 | takes the least ready job with one more attempt and a new lease, and returns its row as it was, with the new attempt |
| JobQueue.SQLiteJobQueue.RenewLease | job_queue.py:77-89 | extends exactly an unexpired lease of this worker |
| JobQueue.SQLiteJobQueue.CompleteJob | job_queue.py:91-103 | completes exactly a job leased to this worker |
| JobQueue.SQLiteJobQueue.FailJob | job_queue.py:106-129 | retries or kills exactly a job leased to this worker |
| JobQueue.PostgresJobQueue.EnqueueJob | postgres_runtime_state.py:68-80 | one pending job per nonblank path |
| JobQueue.PostgresJobQueue.ClaimJob | postgres_runtime_state.py:82-119 | takes the least ready job with one more attempt, a new lease and the token, and returns its new row |
| JobQueue.PostgresJobQueue.RenewLease | postgres_runtime_state.py:121-146 | extends exactly an unexpired lease of this claim |
| JobQueue.PostgresJobQueue.CompleteJob | postgres_runtime_state.py:148-165 | completes exactly a job leased under this claim |
| JobQueue.PostgresJobQueue.FailJob | postgres_runtime_state.py:167-209 | retries or kills exactly a job leased under this claim |
| JobLease.FinishedIsFinal | job_queue.py:91-129 | in any continuation of any run a completed or dead job stays as it is, in either queue |
| JobLease.CompletedAtMostOnce | job_queue.py:91-103 | at most one complete call per job succeeds in a run |
| JobLease.NextClaim | job_queue.py:49-129 | a claimed or renewed job is ready again exactly when its lease ends, a failed one exactly after its delay, a completed or dead one never |
| JobLease.FencesAgree | postgres_runtime_state.py:121-209 | on like tables a renew, complete or fail answers alike and keeps the tables alike if and only if the worker does not act on an older claim of a job it now holds by a later one |
| JobLease.OlderClaimWitness | job_queue.py:91-103 | claimed, expired and claimed again by one worker: completing with the first claim succeeds on SQLite and fails on PostgreSQL |
| JobLease.QueuesSimulateEachOther | postgres_runtime_state.py:68-209 | in every run in which workers act on their latest claims, both queues answer every call alike and end with tables that agree |
| Heartbeat.OthersLeaveJob | job_queue.py:49-75 | before a lease expires no other worker's calls change the job |
| Heartbeat.BeatRenews | job_queue.py:77-89 | a renewal succeeds when its lock wait is shorter than the lease minus the interval, and with nobody else active fails otherwise |
| Heartbeat.TimeoutFits | scripts/pipeline_worker.py:35-38 | interval plus lock timeout stays below the lease exactly for leases above 45 seconds, with 10 seconds to spare from the minimum on |
| Heartbeat.RenewLeaseUntilStopped | scripts/pipeline_worker.py:106-122 | with the minimum lease or a longer one and lock waits within the timeout, the loop never reports a lost lease and leaves the table that the others' calls and its own renewals make, in turn |
| Heartbeat.EveryRenewalSucceeds | scripts/pipeline_worker.py:35-38 | under the same conditions each renewal, however many there are, finds its lease unexpired and extends it |
| Heartbeat.NeverTaken | scripts/pipeline_worker.py:91-122 | at no moment of the heartbeat does another worker's claim return the job |
| PipelineWorker.BeatsKeepRow | scripts/pipeline_worker.py:106-122 | however many beats there are, with other workers' calls between them, the job's row changes only in the end of its lease |
| PipelineWorker.KeptRow | scripts/pipeline_worker.py:200-298 | after the heartbeat and any further calls by others, the worker holds the job at every moment before the last renewal's lease runs out, its row as it was claimed |
| PipelineWorker.FreshClaimHolds | scripts/pipeline_worker.py:219-226 | the first renewal finds the lease held whenever it reads the clock before the claim's lease runs out |
| PipelineWorker.ProcessClaimedJob | scripts/pipeline_worker.py:200-311 | a worker that owns the job at its first renewal settles it: done work completes it, evidence that cannot be read for now and an exception are retried up to the attempt limit, refused evidence kills it at once; one that does not own it changes nothing |
| StagingValidator.AzureStagingLifecycleValidator.Prepare | scripts/azure_staging_validator.py:367-503 | an attempt passes only with all its requests served, the finding then pending approval like the self-approval finding; otherwise it ended at its first request that was lost or whose insert the event table refuses in the state it left, and can be made again |
| StagingValidator.AzureStagingLifecycleValidator.Approve | scripts/azure_staging_validator.py:505-565 | the same, ending approved, with the risk owner's own approval refused with nothing changed |
| StagingValidator.AzureStagingLifecycleValidator.Remediate | scripts/azure_staging_validator.py:567-629 | the same, ending in pending verification, with the implementer's own check refused |
| StagingValidator.AzureStagingLifecycleValidator.CloseFinding | scripts/azure_staging_validator.py:631-685 | the same, ending closed |
| StagingValidator.AzureStagingLifecycleValidator.RunPhase | scripts/azure_staging_validator.py:687-714 | one attempt at any phase: at most nine requests, passed with the phase's fixed status, or ended at its first lost or refused request and resumable |
| StagingValidator.AzureStagingLifecycleValidator.Repeat | scripts/azure_staging_validator.py:295-346 | without a refused insert, a phase that did not pass in n attempts lost exactly n requests |
| StagingValidator.AzureStagingLifecycleValidator.ValidateLifecycle | scripts/azure_staging_validator.py:687-714 | the phases in order, each repeated until it passes, end closed with the self-approval finding still pending whenever there are more attempts per phase than lost requests in all and no insert is refused; without a loss one attempt per phase is enough |
| StagingRequests.AttemptLosses | scripts/azure_staging_validator.py:219-249 | without a refused insert a failed attempt is exactly one lost request and a passed one none |
| StagingRequests.NoCollisionNoClash | governance_core.py:418-436 | from a reachable state, no insert is refused unless SHA-256 collides on one of the validator's own events |
| StagingValidator.NextReady | scripts/azure_staging_validator.py:505-660 | the result of each phase is what the next one accepts |
| BuilderFlags.ExtractBuilderFlags | security_assessment.py:600-612 | the scanner ends on every input with the words and remainder its specification gives |
| BuilderFlags.RunSuffix | security_assessment.py:528-612 | on every input the remainder is a suffix of it |
| BuilderFlags.BuilderFlagsRoundTrip | security_assessment.py:487-612 | flags written with any quoting, escaping and spacing, then any remainder that is not a flag, scan to exactly their meanings and that remainder |
| BuilderFlags.DoubleDashEnds | security_assessment.py:539-552 | a flag that means just "--" ends the scan and is dropped |
| DockerLines.NextContinuation | security_assessment.py:403-414 | the next line that is neither blank nor a comment, and the lines after it |
| DockerLines.CollectInstruction | security_assessment.py:417-438 | the instruction its continued lines assemble to, and the lines after it |
| DockerLines.DockerInstructions | security_assessment.py:441-478 | the loops end on every input with what the line grammar gives |
| DockerLayout.LayoutInvariance | security_assessment.py:308-478 | instructions laid out with any continuations, skipped lines, header, byte-order mark and line endings parse back to exactly those instructions and the escape character in force |
| ContainerReferences.ReferencesAreImmutable | security_assessment.py:801-823 | the check passes exactly when every FROM and COPY step is immutable where it stands |
| ContainerReferences.PriorResolves | security_assessment.py:750-755 | a reference passes as a prior stage exactly when it leads to an earlier stage |
| ContainerReferences.BasesAreTrusted | security_assessment.py:764-823 | when the check passes, following each stage's FROM descends to a digest-pinned or explicitly allowed image |
| ContainerReferences.CopiesAreTrusted | security_assessment.py:782-823 | when the check passes, every COPY --from names an already declared stage, possibly the one it stands in, built on a trusted image, or a pinned image |

## Left out

- OutboxDelivery.OutboxWorker.RunOnce: publishes to the in-memory publisher; a broker that cannot be reached is a flag, and one that fails after accepting a message is covered by the runs, where any worker may fail a row it has published.
- ExportBackfill.BackfillExports: says nothing of a table whose existing ids clash with the computed ones; there INSERT OR IGNORE leaves that event without a row.
- Backfill.BackfillSequences: assumes the schema's unique event ids and hashes and no empty hash; on rows whose hashes repeat or form a cycle the loop need not end.
- OutboxDelivery.FromItemAccepts: a payload with a lone surrogate is not representable, because Dafny characters are Unicode scalar values.
- GovernanceRuns.RowIsFold: title, risk owner, due date and the two time stamps are not in the events, so they are not part of the fold.
- Governance.RequiredTextIs: values that are not strings are not representable.
- GovernanceCalls.GovernanceCore.CreateFinding: the two clock readings of a new row are one.
- GovernanceCalls.GovernanceCore.VerifyChain: the rows are read in the order they were appended, which is their sequence order in every reachable state, and they are this object's typed events; stored rows with arbitrary details are GovernanceEvents.VerifyStoredChain's.
- JobLease.QueuesSimulateEachOther: of a claimed row the job, path and attempts are compared, because SQLite returns its other columns as they were before the claim; jobs are named by their rank, because PostgreSQL skips ids on a refused insert and SQLite does not; blank paths and worker ids, which only one of the two refuses, are excluded.
- Publication.CommittedHasFile: os.replace is one durable step, so a rename undone by a power failure before the directory is flushed is not modelled.
- ContainerReferences.ReferencesAreImmutable: shlex tokenising and COPY source parsing are inputs to each step.
- StagingValidator.AzureStagingLifecycleValidator.ValidateLifecycle: assumes that nobody else changes the validator's two findings.
- Heartbeat.RenewLeaseUntilStopped: assumes one clock, so that no other worker's call reads a time ahead of the renewal's; what happens on a storage error, which also ends the loop as a lost lease, is not modelled.
- PipelineWorker.ProcessClaimedJob: assumes lock waits within the timeout and settling in time; the heartbeat's renewals after the settling call, which can only report a lost lease, a storage error and a killed process are not modelled, and reading the evidence and running the pipeline are one input.
- GovernanceCalls.GovernanceCore.SubmitEvidence: evidence content is text, sized by its UTF-8 bytes, so content that is no UTF-8 text is not representable; a drawn evidence id that the evidence table's primary key already holds, which rolls the call back, is not modelled.
- MiniSoar.ExactlyOnce: finding, control and source identifiers hold no line separators, as the connector writes them; for others ChainedLog.AppendOnceSound says when the log breaks.
- StagingValidator.AzureStagingLifecycleValidator.Prepare: the unauthenticated request and the spoofed actor body are refused by the HTTP layer before any governance call, so they are not modelled.
- Torn appends, file locks, symbolic links, path resolution, fsync and newline translation in text-mode reads.
- Azure Blob, Service Bus and managed-identity adapters, HTTP and WSGI plumbing, token verification.
- SQL text, schema migrations, connection pools and SKIP LOCKED scheduling; in the runs a claim may take any claimable row.
- Worker heartbeat rows and readiness.
- The risk, treatment, approval, action, verification and closure record tables, which only mirror the events.
- pipeline_runs and the pipeline's own idempotency; a completed run may become failed there.
- The nonce replay window, whose lifetime equals the clock skew it guards.
- Posture, portfolio, alert and workflow normalisers, secret scanning, tickets and reports: per-branch checks that would add easy members.
- Latency percentiles, throughput and memory gates of the load baseline: floating point and wall-clock behaviour.
