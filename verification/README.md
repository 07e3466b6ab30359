# Capacity ledger and treasury reconciliation: a verified model

The service keeps, for every financing program, a position with three components (LOCAL: what its own
invoice reservations hold; TREASURY: what the treasury system books; LIMIT: the credit limit), an over-limit
mark, an append-only ledger, reservations, idempotency records, a table of processed treasury messages,
stream positions and a dead-letter queue. Requests (reserve, release, cancel), treasury events,
reconciliation snapshots, a retention sweep, recovery detection and a drift check all write this state.

The project models that state machine and proves what it keeps over every run, in four layers:

1. Arithmetic and text: `Arithmetic.dfy` (rounding and conversion with truncating division written out),
   `Decimal.dfy` (decimal strings and rates).
2. Decisions: `Domain.dfy` (positions, entries, `advancePosition`), `Policies.dfy` (the reserve, release,
   cancel and snapshot policies).
3. Transactions: `Tables.dfy` gives the database as a value and each transaction as one atomic step,
   commit or nothing, with the table CHECKs, the limit trigger, the unique constraints and the 64-bit columns as commit
   guards. `Services.dfy` is the imperative side: a class whose fields are the tables and whose methods are
   the services statement by statement, each proved equal to its step. `Ledger`, `Book`, `Runs` and
   `Evolution` prove the invariant and what never changes back; `Guarantees`, `Outcomes`, `Retention`, `Freeze`,
   `Recovery`, `LateDeltas` and `Fingerprints` state the promises over whole runs; `Answers`, `Verdicts` and
   `Reconciliation` say, on the stored columns alone, what each request, event and snapshot is answered and writes.
4. Delivery: `Consumer.dfy` is the protocol (partition log, position, stored offset, retries, dead-letter
   queue, and a restart between any two effects); `Deliveries.dfy`, `Causes.dfy` and `Redelivery.dfy` prove what it promises;
   `Worker.dfy` is `processMessage` with its retry loops, proved to be a run of the protocol.

Beside them, `Fx.dfy` (the rate cache against the plain lookup) and `Paging.dfy` (keyset paging).

Runs start from an empty database. A program enters as the seed creates it, with zero columns and its limit
set through a ledger entry. A `Run` is any sequence of requests, deliveries, sweeps, detection and drift
jobs (their reads and writes interleaved separately), seeds, lost stream positions, and an environment step
that sets a reservation's treasury reference, which no code of the repository writes. Clocks, configured
ratios, resolved exchange rates and every failure are parameters of the steps.

## Findings

- A consumer group without a stored offset restarts at the end of the log (`fromBeginning: false`). A message
  produced before the first commit and still unprocessed when the consumer restarts is never delivered:
  `Deliveries.FirstMessageIsLost` is such a run, `Deliveries.RestartLeavesBehind` gives the exact condition, and
  `Deliveries.NothingIsLost` shows that this is the only way to lose one.
- The cancellation fingerprint joins free text with a separator that invoice ids may contain. An invoice id that
  holds a separator followed by a whole reason, such as `A|CANCELLED`, can be confused with the shorter id
  (`Fingerprints.ConfusableIff`), and then the cancellation of the other invoice under the same request id is
  answered with the first one's outcome (`Fingerprints.CollisionIsReached`). Between ids without such a segment
  there is no collision (`Fingerprints.CancelFingerprintIsInjective`).
- A booked, released or limit event that would take its component below zero or past 64 bits, or whose version
  exceeds 64 bits, is a database failure, not a quarantine decision: it is retried to the bound and then
  dead-lettered as a handler failure (`Outcomes.EventAppliedIff`, `Causes.QuarantineHasACause`).
- The rate cache guards against replacing a newer rate with what it captured before its query, so an overlapping
  call can still be overtaken: the older rate then replaces the newer and answers the present for up to a minute
  (`Fx.OverlapAges`; `Fx.AgesIff` is the exact condition).
- A backdated rate lookup that finds the cache empty does the same without any overlap
  (`Fx.BackdatedFillIsServed`; `Fx.CachedAnswerAgreesIff` says exactly when a cached answer agrees).
- The ledger's `to` bound is inclusive.

## Model

| member | source | states |
|---|---|---|
| Arithmetic.RoundHalfUpMeaning | src/shared/money/convert.ts:22-36 | the result is q if and only if q is the integer nearest to the quotient, ties away from zero; a non-positive denominator is the only error |
| Arithmetic.AtRateIsNearest | src/shared/money/convert.ts:42-54 | an amount at a rate is worth q if and only if q is the integer nearest to amount times rate over 10,000,000,000, ties away from zero |
| Arithmetic.ConvertMeaning | src/shared/money/convert.ts:42-54 | conversion answers that integer, and rounds to zero if and only if the amount is not zero and the nearest integer is |
| Arithmetic.RoundedMonotone | src/shared/money/convert.ts:22-36 | rounding never reverses the order of two numerators |
| Arithmetic.RoundedNearlyAdditive | src/shared/money/convert.ts:22-36 | converting two parts separately differs from converting the sum by at most one unit |
| Arithmetic.UnitRateIsIdentity | src/shared/money/convert.ts:42-54 | at rate 1.0 conversion is the identity and never rounds to zero |
| Decimal.DecimalRoundTrip | src/shared/money/money.ts:61-109 | rendering and parsing returns the amount exactly when it has at most 19 digits and at most 19 of them are fractional |
| Decimal.AcceptedDecimalIsExact | src/shared/money/money.ts:78-109 | every accepted string parses to exactly its decimal value times ten to the number of minor digits |
| Decimal.DecimalAnswered | src/shared/money/money.ts:78-109 | for every decimal text, on its sign, digits and leading zeros: the first of the four errors that holds, or the number its digits spell scaled to the minor digits |
| Decimal.InvalidDecimalIff | src/shared/money/money.ts:78-85 | a text is invalid if and only if it is no decimal text with at most 19 digits before the dot |
| Decimal.RateAnswered | src/shared/money/convert.ts:5-20 | for every unsigned decimal text: invalid past ten digits on either side, zero refused, otherwise its digits scaled to ten places |
| Decimal.InvalidRateIff | src/shared/money/convert.ts:5-8 | a rate is invalid if and only if it is no unsigned text with at most ten digits on either side of the dot |
| Decimal.ScaledRateIsExact | src/shared/money/convert.ts:5-20 | an accepted rate is its decimal value times 10^10, positive and below 10^20 |
| Decimal.StoredRateReadsBack | src/shared/money/convert.ts:5-20 | a NUMERIC(20,10) rate rendered in ten places is scaled back to itself if and only if it is between 0 and 10^20 |
| Domain.AdvancePosition | src/capacity/domain/position.ts:12-90 | the loop yields the component sums, consecutive sequence numbers and a marker exactly when the total crosses the limit |
| Policies.ReleaseKeepsSound | src/capacity/domain/policies/release.policy.ts:49-134 | an accepted release leaves the reservation holding exactly its converted outstanding invoice and returns exactly what it lost, at least one unit |
| Policies.ReleaseReturnsItsWorth | src/capacity/domain/policies/release.policy.ts:66-134 | a release returns its own conversion give or take one unit; the refusal for a negative difference is unreachable |
| Policies.FullReleaseCloses | src/capacity/domain/policies/release.policy.ts:85-134 | releasing the whole outstanding invoice of an open reservation is accepted and closes it |
| Policies.ReleasesAreBounded | src/capacity/domain/policies/release.policy.ts:66-134 | over any run of releases the row stays sound and the accepted ones number at most the reserved amount |
| Policies.CancelKeepsSound | src/capacity/domain/policies/cancel.policy.ts:22-42 | cancelling is possible exactly while something is reserved, returns all of it, and is a write-off exactly after a partial release |
| Policies.AdditiveRule | src/capacity/domain/policies/apply-snapshot.policy.ts:73-132 | from any position the corrected total is the snapshot's reserved amount plus the outstanding of unacknowledged local reservations; TREASURY is not negative |
| Policies.MarkerBeforeSums | src/capacity/domain/policies/apply-snapshot.policy.ts:77-120 | taking the sums before the marker would differ by exactly the outstanding newly acknowledged |
| Policies.SnapshotIdempotent | src/capacity/domain/policies/apply-snapshot.policy.ts:73-132 | the policy on its own result acknowledges nothing and moves nothing |
| Policies.ApplyMarker | src/capacity/domain/policies/apply-snapshot.policy.ts:77-97 | the mapping loop marks exactly the covered rows not already acknowledged by as new a version, and collects their ids in order |
| Policies.SumMarked | src/capacity/domain/policies/apply-snapshot.policy.ts:99-110 | the loop's two totals are the acknowledged local and the whole local outstanding |
| Policies.ApplySnapshotPolicy | src/capacity/domain/policies/apply-snapshot.policy.ts:73-132 | the method decides as the policy function the laws above are about |
| Ledger.MarkersAlternate | src/capacity/domain/position.ts:44-77 | the over-limit markers of a good ledger read ONSET, CLEARED, ONSET, ... and the last is an onset exactly while marked |
| Ledger.PersistKeepsLedger | src/capacity/infrastructure/repositories/program.repository.ts:39-89 | appending a batch keeps the replay, the gapless sequence, the mark and the CHECKs |
| Book.LocalIsEverySum | src/capacity/application/reconciliation-check.service.ts:30-66 | LOCAL equals the outstanding over all local reservations and over the open ones alone |
| Book.MarkIdsIsMark | src/capacity/application/apply-snapshot.service.ts:295-309 | the update by ids writes exactly the rows the policy marked |
| Book.AcceptedSnapshot | src/capacity/application/apply-snapshot.service.ts:181-318 | what an accepted snapshot writes realises the additive rule, moves TREASURY within the guard and LOCAL not at all |
| Book.SnapshotKeepsBook | src/capacity/application/apply-snapshot.service.ts:181-318 | a parsed snapshot trips no CHECK, trigger or 64-bit column, and keeps reservations, ledger and cache in agreement |
| Runs.EveryRunKeepsInv | src/capacity/infrastructure/unit-of-work.ts:58-73 | every database reached by any run satisfies the whole invariant |
| Runs.AppliedEventShape | src/capacity/application/apply-treasury-event.service.ts:87-222 | an event that changes anything was recorded under neither its id nor its version, and is recorded together with its effect |
| Runs.AppliedShape | src/capacity/application/apply-snapshot.service.ts:136-327 | the same for a snapshot, which is also not older than the applied version |
| Evolution.RunEvolves | src/capacity/application/release.service.ts:92-238 | over any run ledgers and processed rows only grow, rows keep their terms and only lose outstanding, closed stays closed, acknowledged stays acknowledged by growing versions |
| Guarantees.LedgerReplays | scripts/audit-ledger.ts:44-92 | in every run each cached component is the sum of its entries, sequences are 1, 2, ... without a gap, the mark is set exactly while over the limit, markers alternate |
| Guarantees.CacheNeverDrifts | src/capacity/application/reconciliation-check.service.ts:30-66 | in every run LOCAL equals the outstanding over all and over open reservations, nothing drifts and investigation_required is never set |
| Guarantees.SnapshotsAreAdditive | src/capacity/application/apply-snapshot.service.ts:181-318 | in every run an applied snapshot realises the additive rule, its local delta is zero, and its TREASURY change is within the guarded share of the old limit |
| Guarantees.InvoicesConserve | src/capacity/domain/policies/release.policy.ts:85-134 | in every run the LOCAL entries naming an invoice sum to its outstanding reserved: the integer nearest to its outstanding invoice times its rate until cancelled or written off, and zero exactly once closed |
| Guarantees.ReservationsAreInOrder | src/migrations/1758240000000-InitialSchema.ts:84-89 | in every run each reservation is within its bounds, has a rate exactly for another currency, is acknowledged exactly with a version, holds something exactly while open, and is the only one of its invoice |
| Guarantees.NothingIsStranded | src/capacity/application/release.service.ts:92-238 | in every run an open reservation of a verified program is closed by one release of its outstanding invoice, which returns all it reserved |
| Guarantees.RequestsNeverOverbook | src/capacity/domain/policies/reserve.policy.ts:23-76 | in every run a validated request never faults, never takes a program over its limit and records no onset |
| Answers.EntryIsRejected | src/migrations/1758260000000-SnapshotLocalCorrectionTrigger.ts:18-31 | writing one entry to any account is rejected if and only if a column, a CHECK or, outside a reconciliation, the trigger on a LOCAL raised past the limit rejects it |
| Guarantees.SnapshotsNeverFault | src/migrations/1758260000000-SnapshotLocalCorrectionTrigger.ts:18-31 | in every run a parsed snapshot is never refused by the database |
| Guarantees.OnlyCreatedChanges | src/capacity/application/reserve.service.ts:94-241 | a request that is not carried out leaves the whole database unchanged, its key included |
| Guarantees.OneEffectPerKey | src/capacity/application/idempotency.service.ts:58-130 | after its one effect, and after any later run, a key changes nothing and is answered with the first outcome exactly when the request is the same and the record unexpired |
| Retention.ReplayedUntilSwept | src/capacity/application/request-retention.job.ts:24-34 | in every run a request made again is answered with its first outcome if and only if no sweep since had a cutoff after it was recorded, and otherwise with the expiry; it changes nothing |
| Guarantees.NeverInFlight | src/capacity/application/idempotency.service.ts:58-130 | in every run no committed record is PENDING |
| Guarantees.AppliedVersionsIncrease | src/capacity/application/apply-snapshot.service.ts:153-179 | versions of applied snapshots of a program strictly increase, whatever runs in between |
| Guarantees.VersionsAreUnique | src/capacity/application/apply-treasury-event.service.ts:100-139 | in every run a (program, kind, version) has at most one processed row and treasury_version is the newest snapshot applied |
| Guarantees.AcknowledgementsAreKept | src/capacity/domain/policies/apply-snapshot.policy.ts:77-97 | from any reachable state on, acknowledged flags never clear and acknowledging versions never decrease |
| Guarantees.InspectEventIsFastPath | src/treasury/handlers/capacity-event.handler.ts:31-57 | with no program created in between, an inspection whose reads see three successive states, then applying or skipping, ends in the same database as applying directly |
| Guarantees.InspectSnapshotIsFastPath | src/treasury/handlers/reconciliation-snapshot.handler.ts:25-61 | the same for snapshots |
| Outcomes.ReservedIff | src/capacity/application/reserve.service.ts:94-241 | in every run a new reservation is carried out if and only if verified, within limit, a new invoice, a rate where needed and 0 < worth <= available; then LOCAL moves by that worth, the integer nearest to amount times rate, and nothing else does |
| Outcomes.ReleasedIff | src/capacity/application/release.service.ts:92-238 | in every run a new release is carried out if and only if the stated checks hold; what stays reserved is the integer nearest to the remaining invoice times the rate |
| Outcomes.ReleasesInRuns | src/capacity/domain/policies/release.policy.ts:66-134 | in every run the releases carried out for an invoice number at most what its reservation has given back |
| Outcomes.CancelledIff | src/capacity/application/cancel.service.ts:89-219 | in every run a new cancellation is carried out if and only if verified and open; it returns everything, as cancellation or write-off |
| Answers.ReservationAnswered | src/capacity/application/reserve.service.ts:94-241 | in every run, on the stored columns: which refusal a new reservation meets first, or the whole database it leaves, its row unacknowledged and confirmed now, and its one ledger entry |
| Answers.ReleaseAnswered | src/capacity/application/release.service.ts:92-238 | in every run, on the stored columns: which refusal a new release meets first, or the whole database it leaves |
| Answers.CancellationAnswered | src/capacity/application/cancel.service.ts:89-219 | in every run, on the stored columns: which refusal a new cancellation meets first, or the whole database it leaves |
| Answers.KnownKeyAnswered | src/capacity/application/idempotency.service.ts:58-117 | in every run a request under a known key changes nothing: conflict unless of the recorded kind and content, then replayed, or expired |
| Outcomes.EventAppliedIff | src/capacity/application/apply-treasury-event.service.ts:87-262 | in every run a first delivery fails exactly when its version exceeds 64 bits or, unless an echo, its component would leave 0..2^63-1; an echo moves nothing; otherwise exactly that component becomes what is intended |
| Verdicts.EventApplied | src/capacity/application/apply-treasury-event.service.ts:87-262 | in every run, on recorded rows, programs and reservations: what an event is answered, and the exact entry or acknowledgements, applied time and stream position it writes |
| Verdicts.BookingsMoveOrAcknowledge | src/capacity/application/apply-treasury-event.service.ts:141-214 | in every run a booking or release that takes effect moves TREASURY by exactly its amount when no reservation carries its reference, and otherwise moves nothing and newly acknowledges exactly the rows that carry it |
| Verdicts.AssignedReferenceIsEchoed | src/capacity/application/apply-treasury-event.service.ts:141-189 | in every run, once a reservation is given a treasury reference, a booking or release under it that takes effect acknowledges the reservation and moves nothing |
| Verdicts.EventInspection | src/capacity/application/apply-treasury-event.service.ts:54-85 | the inspection skips, proceeds or quarantines as the recorded ids, versions and four content fields say, whatever state each read sees |
| Verdicts.SnapshotInspection | src/capacity/application/apply-snapshot.service.ts:93-130 | the same for snapshots, with staleness and five content fields |
| Outcomes.SnapshotAppliedIff | src/capacity/application/apply-snapshot.service.ts:136-327 | in every run a parsed snapshot is applied if and only if it is new, not stale, consistent and plausible; otherwise nothing changes |
| Reconciliation.SnapshotApplied | src/capacity/application/apply-snapshot.service.ts:136-327 | in every run, on the stored columns: what a parsed snapshot is answered, and the whole database it leaves, rows, ledger entries, marker, version and times |
| Reconciliation.AcknowledgedIff | src/capacity/domain/policies/apply-snapshot.policy.ts:50-97 | in every run, after an applied snapshot a reservation is acknowledged if and only if it was, or was confirmed by the watermark, or its treasury reference is listed |
| Reconciliation.FullWatermarkSetsTotal | src/capacity/domain/policies/apply-snapshot.policy.ts:73-132 | in every run a watermark at or after every confirmation leaves the total at exactly what the snapshot states |
| Outcomes.SeededProgram | scripts/seed.ts:205-226 | a seeded program has its limit from one ledger entry, nothing reserved and a verified position |
| Outcomes.SeededProgramReserves | src/capacity/domain/policies/reserve.policy.ts:23-76 | a seeded program takes a reservation in its currency if and only if it is within the limit |
| Outcomes.SeededProgramReconciles | src/capacity/application/apply-snapshot.service.ts:205-215 | a seeded program takes a first snapshot in its currency if and only if the magnitude guard admits its reserved amount |
| Fingerprints.MoneyFingerprintIsInjective | src/capacity/application/idempotency.service.ts:23-35 | reserve and release fingerprints determine program, invoice, amount and currency, even when the invoice id contains the separator |
| Fingerprints.CancelFingerprintsCollideIff | src/capacity/application/idempotency.service.ts:37-48 | cancellations of ids of different length collide if and only if the longer id continues the shorter by a separator and the other's reason, and the shorter one's note makes up for the rest |
| Fingerprints.ConfusableIff | src/capacity/application/idempotency.service.ts:37-48 | some cancellation of a shorter id collides with one of this id if and only if the id holds a separator followed by a whole reason |
| Fingerprints.CancelFingerprintIsInjective | src/capacity/application/idempotency.service.ts:37-48 | when neither id holds such a segment, equal fingerprints mean equal program, invoice, reason and note |
| Fingerprints.CollisionReplays | src/capacity/application/cancel.service.ts:89-121 | once one of two colliding cancellations under a key is carried out, the other is answered with its outcome |
| Fingerprints.CollisionIsReached | src/capacity/application/cancel.service.ts:89-121 | for every id holding a reason, seeding, reserving and cancelling it leads to such a replay for a cancellation of the shorter id |
| Freeze.UnverifiedIsFrozen | src/capacity/application/release.service.ts:110-130 | from an unverified program on, and until a snapshot is applied, no run moves LOCAL or any reservation's amounts or status |
| Freeze.CompletedStillReplays | src/capacity/application/cancel.service.ts:107-127 | while unverified a request is replayed exactly when its record is complete and the same |
| Recovery.NoFalseAlarm | src/capacity/application/recovery-detection.service.ts:34-74 | with a clock that does not go back and increasing applied offsets detection flags nothing in any reachable state |
| Recovery.UnverifiableIff | src/capacity/application/recovery-detection.service.ts:34-60 | a program is found unverifiable if and only if it is verified and some entry by treasury, of one of the three causes, is newer than every stream position |
| Recovery.LossIsDetected | src/capacity/application/recovery-detection.service.ts:34-74 | after the stream positions of a verified program are lost, detection flags it if and only if its ledger holds an entry by treasury of one of the three causes |
| Recovery.FoundIsFlagged | src/capacity/application/recovery-detection.service.ts:52-74 | what a background job has read it writes: a program found unverifiable is unverified by the write even if a snapshot has verified it since |
| LateDeltas.LateDeltasCommute | src/capacity/application/apply-treasury-event.service.ts:141-214 | two orders of the same late bookings and releases, all committing, end with the same components, mark, acknowledgements and applied time, the newest of all |
| Services.Database.Begin | src/capacity/application/idempotency.service.ts:58-117 | inserts a PENDING record for a new key, and otherwise answers as the recorded operation, content and state say |
| Services.Database.PersistAdvance | src/capacity/infrastructure/repositories/program.repository.ts:39-89 | writes ledger rows then the program row, with every constraint that can reject either |
| Services.Database.Serve | src/capacity/application/reserve.service.ts:94-241 | reserve, release and cancel, statement by statement, commit exactly the atomic step or nothing |
| Services.Database.ReleaseStatements | src/capacity/application/release.service.ts:126-212 | the statements of a release do what its specification says |
| Services.Database.CancelStatements | src/capacity/application/cancel.service.ts:123-193 | the statements of a cancellation do what its specification says |
| Services.Database.Sweep | src/capacity/application/request-retention.job.ts:24-34 | expires exactly the complete records older than the configured days, leaves every other record and table as it is, and counts them |
| Services.Database.ApplyEvent | src/capacity/application/apply-treasury-event.service.ts:87-222 | the event transaction commits exactly the atomic step or nothing |
| Services.Database.ApplySnapshot | src/capacity/application/apply-snapshot.service.ts:136-327 | the snapshot transaction commits exactly the atomic step or nothing |
| Services.Database.BuildEntries | src/capacity/application/apply-snapshot.service.ts:354-377 | pushes one entry for each component that moves |
| Services.Database.UpsertPosition | src/capacity/infrastructure/repositories/program-stream-position.repository.ts:7-23 | inserts, or updates only when the stored offset is behind |
| Services.Database.Detect | src/capacity/application/recovery-detection.service.ts:34-74 | flags and reports, in order, exactly the unverifiable programs |
| Services.DetectionIsItsSteps | src/capacity/application/recovery-detection.service.ts:34-74 | the read and the writes of a detection, with nothing in between, flag exactly what the method does, each program once |
| Services.Database.Check | src/capacity/application/reconciliation-check.service.ts:30-66 | reports both figures of, and flags, exactly the programs that drift |
| Services.DriftCheckIsItsSteps | src/capacity/application/reconciliation-check.service.ts:30-66 | the same for the drift check |
| Services.Database.AuditLedger | scripts/audit-ledger.ts:44-92 | succeeds if and only if every program replays, else reports the first program and component that do not, all before them agreeing; it always succeeds on reachable states |
| Services.CheckFindsNothing | src/capacity/application/reconciliation-check.service.ts:30-66 | on a reachable state the drift check reports nothing |
| Consumer.ExecuteRunsOps | src/treasury/consumer/treasury.consumer.ts:115-162 | every run of the protocol drives the database through one of its own runs, so all guarantees above apply to it |
| Consumer.SettledIsSuperseded | src/treasury/handlers/capacity-event.handler.ts:31-57 | a delivery that settles leaves its message recorded, or superseded by recorded content or a newer snapshot |
| Redelivery.InspectionAnswers | src/treasury/handlers/reconciliation-snapshot.handler.ts:25-48 | in any run the handler answers a message before its apply exactly as the table on recorded ids, versions, contents, programs and marker says |
| Redelivery.ConflictIff | src/capacity/application/apply-treasury-event.service.ts:54-85 | in any run an event conflicts with the row of its version if and only if its id is new and that row differs in type, amount, currency or reference; otherwise it is skipped |
| Redelivery.RecordedIsSettled | src/treasury/handlers/capacity-event.handler.ts:36-42 | a message whose id is recorded is skipped by every later inspection that does not fail |
| Redelivery.RedeliveryIsSkipped | src/treasury/consumer/treasury.consumer.ts:115-162 | once a step has taken effect, any later delivery of that message without a failure stores its offset and leaves database and dead-letter queue as they were |
| Consumer.NothingCommittedIsLost | src/treasury/consumer/treasury.consumer.ts:115-162 | whatever fails, restarts or is delivered again, every message between the subscription's start and the stored offset is recorded, superseded or in the dead-letter queue |
| Deliveries.OneEffectPerMessage | src/capacity/application/apply-treasury-event.service.ts:122-139 | in any run of the protocol no two steps applying messages of the same id both take effect |
| Deliveries.RestartLeavesBehind | src/treasury/consumer/treasury.consumer.ts:222-231 | a restart leaves a message behind if and only if it was committed or nothing of its partition had been, and no later run ever delivers it again |
| Deliveries.StoredOffsetIsResumed | src/treasury/consumer/treasury.consumer.ts:115-162 | an offset that was stored, heard of or not, is never gone back before by any later restart |
| Deliveries.FirstMessageIsLost | src/treasury/consumer/treasury.consumer.ts:222-231 | from a fresh world a run loses any first message: the stored offset passes it and it is neither recorded nor dead-lettered |
| Deliveries.NothingIsLost | src/treasury/consumer/treasury.consumer.ts:115-162 | without a restart before the first commit, everything below the stored offset is accounted for |
| Deliveries.ProtocolRaisesNoAlarm | src/capacity/infrastructure/repositories/program-stream-position.repository.ts:6-23 | under the protocol, with a clock that does not go back, detection flags no program |
| Deliveries.NeverStuck | src/treasury/retry/failure-classifier.ts:182-210 | from any reachable state a run in which nothing fails commits the message at the position |
| Worker.TreasuryConsumer.HandleWithRetry | src/treasury/retry/failure-classifier.ts:182-210 | makes exactly the attempts and steps of the specification; what it returns or throws is decided by the last reply: exhausted exactly when the bound's last attempt raised a non-permanent error, permanent exactly when the last attempt raised one |
| Worker.TriesAreBounded | src/treasury/retry/failure-classifier.ts:182-210 | the attempts number between one and the bound, each inspects the message once, all but the last raised retried errors, and a retried last error means the bound is used up |
| Worker.TransientToTheEnd | src/treasury/retry/failure-classifier.ts:190-201 | when every attempt at a parsable message fails transiently, the last reply is that transient error |
| Worker.TreasuryConsumer.Quarantine | src/treasury/consumer/treasury.consumer.ts:340-367 | publishes as often as the specification says, throws its last error, and returns normally only with the record, under its reason, in the dead-letter queue |
| Worker.TreasuryConsumer.ProcessMessage | src/treasury/consumer/treasury.consumer.ts:115-162 | takes exactly the specified steps; rejects for the handler if and only if the last reply is a transient error, and always when every attempt fails transiently, then with nothing published and nothing committed; finishes only with the offset stored and the message accounted for; any rejection keeps the position |
| Redelivery.RecordedIsOnlyCommitted | src/treasury/consumer/treasury.consumer.ts:115-162 | for a recorded message and an inspection that does not fail, processMessage makes one attempt, publishes nothing and only commits |
| Causes.QuarantineHasACause | src/treasury/consumer/treasury.consumer.ts:120-159 | in any run every dead-letter record follows an attempt at its message that warrants it: the handler's verdict, or a permanent error, or an unrecognised one at the bound |
| Causes.PublishedIsKept | src/treasury/consumer/treasury.consumer.ts:340-367 | a dead-letter record that reached the queue, heard of or not, is there after any later run |
| Causes.TransientNeitherPublishedNorCommitted | src/treasury/consumer/treasury.consumer.ts:131-149 | in any run a message all of whose failures are recognised transient, and which never succeeds, is neither dead-lettered nor committed |
| Fx.StaticRateProvider.RateFor | src/fx/static-rate.provider.ts:15-44 | the loop returns the newest rate in effect, and none exactly when there is none |
| Fx.LookupMeaning | src/fx/static-rate.provider.ts:15-44 | the lookup answers with text, time, source and scaled rate of the first of the newest rows of the pair in effect, with the error of its text, or with nothing if and only if there is none |
| Fx.CachedRateProvider.Start | src/fx/cached-rate.provider.ts:25-44 | up to the query: answers from an entry that is unexpired and in effect, else captures the entry it found |
| Fx.CachedRateProvider.Complete | src/fx/cached-rate.provider.ts:46-77 | from the query on: answers what the query found, and writes it unless it is older than the captured entry |
| Fx.CachedRateProvider.RateFor | src/fx/cached-rate.provider.ts:25-77 | the two halves with nothing in between are one cached lookup |
| Fx.FilledIsServedIff | src/fx/cached-rate.provider.ts:25-77 | a rate filled into an empty entry answers the pair, whatever the table then holds, if and only if asked less than 60 s later about a time not before its own |
| Fx.AnswersAreStoredRates | src/fx/cached-rate.provider.ts:25-77 | for any history of overlapping calls an answered rate was stored for that pair and is in effect at the asked time |
| Fx.AgesIff | src/fx/cached-rate.provider.ts:66-74 | in any history an event replaces a cached rate by an older one if and only if it resumes a call that found a rate older than the present entry but not older than the one it captured, if any |
| Fx.CachedNeverAges | src/fx/cached-rate.provider.ts:66-74 | while no other call writes the pair between the halves of one, no cached rate is replaced by an older one |
| Fx.OverlapAges | src/fx/cached-rate.provider.ts:30-74 | two overlapping calls on an empty cache around a new rate leave the older one, which then answers the present |
| Fx.AnswersAreRecent | src/fx/cached-rate.provider.ts:30-49 | asked about the present on a monotone clock over a fixed table, and however calls overlap, every answer is the plain lookup's at an instant less than 60 s before the call |
| Fx.CachedAnswerAgreesIff | src/fx/cached-rate.provider.ts:34-49 | over a fixed table a cached answer is the plain lookup's if and only if no newer row is in effect at the asked time |
| Fx.BackdatedFillIsServed | src/fx/cached-rate.provider.ts:66-74 | after a backdated fill the older rate answers the present for a minute |
| Paging.NextPageFollows | src/capacity/application/audit-read.service.ts:187-202 | a page and what its cursor continues with are together the listing, and less remains |
| Paging.PagesCover | src/capacity/application/audit-read.service.ts:151-202 | for any limit of at least one the pages end and are the whole filtered table in descending order, nothing skipped or repeated |
| Paging.LedgerPagesCover | src/capacity/application/audit-read.service.ts:223-288 | pages of a ledger read from a reachable state and later ones cover exactly the entries present at the first page |
| Paging.LedgerAnswered | src/capacity/application/audit-read.service.ts:223-288 | in every run the ledger listing answers the first error that holds or the newest wanted entries, 100 or up to 1000, newest first, with a cursor if and only if there are more |
| Paging.ReservationsAnswered | src/capacity/application/audit-read.service.ts:151-202 | the same for reservations by status, 50 or up to 200, by creation time and id |
| Paging.ListLedger | src/capacity/application/audit-read.service.ts:223-288 | the pushed conditions select the filter's rows below the cursor; the limit, program and cursor errors come in that order |
| Paging.ListReservations | src/capacity/application/audit-read.service.ts:151-202 | the same for reservations, ordered by creation time and id |

## Left out

- HTTP, guards, throttling, request validation, logging, metrics, health and the read-side availability figures: they only add easy members.
- Message and snapshot parsing: messages are taken as parsed by the handler of their topic; unparsable ones go to the dead-letter queue. Snapshot amounts are those the parser accepts.
- SQL text, row mapping, UUID keys and JSON bodies: tables are maps and sequences, a reservation is identified by program and invoice, a reply body is the reservation and program rows.
- SHA-256: the fingerprint and the content hash stand for their preimages, so equal hashes mean equal content.
- snapshot_acknowledgement rows, the effective time and source denormalised with a reservation's rate, and processed_at: written and never read by the modelled code.
- A stored rate that scaleRate rejects while a reservation resolves it: a reservation takes a resolved rate or none; Fx models the rejection.
- Row locks and isolation: a transaction is one atomic step, which withProgramLock provides per program.
- Kafka client lifecycle, rebalances that let two consumers work on one partition at once, log retention: a partition has one worker, which may restart at any point.
- Delays between retries: attempts are counted, not timed. Failures are permanent, recognised transient or unrecognised; the tables of error codes are not modelled.
- The floating-point ratio of the magnitude guard: basis points are a parameter.
- 64-bit wrap-around of the ledger sequence and of stored offsets.
- Restore from backup, except the loss of stream-position rows.
- Forged cursors that decode to something that is not a key, and non-integer limits.
- Guarantees.InspectEventIsFastPath: is about the resulting database; with an old inspection a message may be dead-lettered where applying directly would have skipped it.
- Paging.PagesCover: is about a table that does not change between pages; for reservations, whose status can change, nothing is claimed across changes.
- Services.Database.AuditLedger: reads one committed database; the script's queries are separate statements, between which others may commit.
- Consumer.NothingCommittedIsLost: the protocol reads one committed state per inspection; Guarantees.InspectEventIsFastPath and InspectSnapshotIsFastPath cover inspections whose reads see different ones.
- Worker.TreasuryConsumer.ProcessMessage: kafkajs redelivery after a rejection is a step of the protocol, not a loop in the method.
