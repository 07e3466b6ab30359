/**
 * The database as values: its tables, and each transaction as one atomic step from a committed
 * state to the next (withProgramLock, src/capacity/infrastructure/unit-of-work.ts:58-73).
 * A transaction that refuses or faults leaves the state it started from.
 */
module Tables {
  import opened Wrappers
  import opened Arithmetic
  import opened Decimal
  import opened Domain
  import opened Policies

  // ---------- Rows ----------

  datatype Program = Program(
    organisation: string, position: Position, treasuryVersion: int, treasuryEffectiveAt: Option<Time>,
    appliedEffectiveAt: Option<Time>, positionChangedAt: Time)

  datatype LedgerRow = LedgerRow(entry: PendingEntry, sequence: int, occurredAt: Time)

  datatype Coordinates = Coordinates(topic: string, partition: int, offset: int)

  datatype StreamRow = StreamRow(topic: string, partition: int, offset: int, updatedAt: Time)

  /** Everything keyed by one program: its row and its rows in the program-scoped tables. */
  datatype Account = Account(
    program: Program, ledger: seq<LedgerRow>, reservations: seq<ReservationRow>, positions: seq<StreamRow>)

  datatype MessageKind = EventKind | SnapshotKind

  /** The fields that determine a message's effect; stands for their SHA-256. */
  datatype Content =
    | EventContent(eventType: EventType, amount: int, currency: string, reference: Option<string>)
    | SnapshotContent(currency: string, creditLimit: int, reserved: int, effectiveAt: Time, acknowledgement: Option<Marker>)

  datatype ProcessedRow = ProcessedRow(messageId: string, programId: string, kind: MessageKind, version: int, content: Content)

  datatype Operation = ReserveOp | ReleaseOp | CancelOp

  datatype Body = Body(reservation: ReservationRow, program: Program)

  /** The state column and, by its CHECK, an outcome exactly when COMPLETE. */
  datatype RecordState = Pending | Complete(outcome: Body) | Expired

  datatype RequestRecord = RequestRecord(operation: Operation, fingerprint: string, state: RecordState, recordedAt: Time)

  /**
   * `suspects` and `drifted` hold the programs that a background job has read as unverifiable or
   * drifting and has not yet updated.
   */
  datatype Db = Db(
    accounts: map<string, Account>, requests: map<(string, string), RequestRecord>, processed: seq<ProcessedRow>,
    suspects: set<string>, drifted: set<string>)

  const EMPTY: Db := Db(map[], map[], [], {}, {})

  datatype Fault = ProgramNotFound | CheckViolation | OutOfRange | UniqueViolation

  // ---------- Commands and outcomes ----------

  datatype Action =
    | ReserveAction(amount: int, currency: string)
    | ReleaseAction(amount: int, currency: string)
    | CancelAction(reason: string, note: Option<string>)

  datatype Command = Command(
    organisationId: string, programId: string, requestId: string, invoiceId: string,
    actor: string, correlationId: string, action: Action)

  datatype RequestResult = Created(body: Body) | Replayed(body: Body) | Refused(code: Refusal) | Faulted(fault: Fault)

  /** What a transaction does once the idempotency check lets it proceed. */
  datatype Work = Done(account: Account, body: Body) | Refuses(code: Refusal) | Fails(fault: Fault)

  datatype QuarantineReason =
    | UnknownProgram | CurrencyMismatched | VersionConflict | MissingAckMarker | ImplausibleDelta | SnapshotInconsistent

  datatype ApplyResult =
    | Applied | AlreadyApplied | EchoSuppressed | Ignored | Quarantined(reason: QuarantineReason) | ApplyFaulted(fault: Fault)

  datatype InspectResult = Proceed | Skip | Quarantine(reason: QuarantineReason) | InspectFaulted(fault: Fault)

  // ---------- persistAdvance ----------

  function LedgerRows(entries: seq<SequencedEntry>, now: Time): seq<LedgerRow> {
    seq(|entries|, k requires 0 <= k < |entries| => LedgerRow(entries[k].entry, entries[k].sequence, now))
  }

  /** The CHECKs on program. */
  predicate ProgramChecks(p: Position) {
    p.localReserved >= 0 && p.treasuryReserved >= 0 && p.creditLimit >= 0
  }

  predicate ProgramFits(p: Position) {
    FitsInt64(p.localReserved) && FitsInt64(p.treasuryReserved) && FitsInt64(p.creditLimit)
  }

  /** assert_local_within_limit, which stands down while a snapshot is being applied. */
  predicate TriggerAllows(before: Position, after: Position, reconciling: bool) {
    after.localReserved > before.localReserved ==> reconciling || after.localReserved <= after.creditLimit
  }

  /** Appends the advanced entries and updates the position, unless a constraint rejects it. */
  function Persist(a: Account, entries: seq<PendingEntry>, now: Time, reconciling: bool): Result<Account, Fault> {
    var before := a.program.position;
    var r := Advance(before, entries, now);
    if exists k :: 0 <= k < |r.entries| && !FitsInt64(r.entries[k].entry.delta) then Failure(OutOfRange)
    else if exists k :: 0 <= k < |a.ledger| && before.nextSequence <= a.ledger[k].sequence < r.program.nextSequence then
      Failure(UniqueViolation)
    else if !ProgramFits(r.program) then Failure(OutOfRange)
    else if !ProgramChecks(r.program) || !TriggerAllows(before, r.program, reconciling) then Failure(CheckViolation)
    else
      Success(a.(program := a.program.(position := r.program, positionChangedAt := now),
                 ledger := a.ledger + LedgerRows(r.entries, now)))
  }

  // ---------- Reserve, release, cancel ----------

  /** The index of an invoice's row, or the number of rows when it has none. */
  function Locate(rows: seq<ReservationRow>, invoiceId: string): (i: nat)
    ensures i <= |rows|
    ensures i < |rows| ==> rows[i].invoiceId == invoiceId
    ensures forall k :: 0 <= k < i ==> rows[k].invoiceId != invoiceId
  {
    if rows == [] || rows[0].invoiceId == invoiceId then 0 else 1 + Locate(rows[1..], invoiceId)
  }

  function NewReservation(c: Command, amount: int, currency: string, programCurrency: string, d: ReserveDecision, now: Time): ReservationRow {
    ReservationRow(c.invoiceId, amount, currency, programCurrency, d.reserved, amount, d.reserved, d.fx,
                   Active, LocalOrigin, false, None, None, now, now)
  }

  function LocalEntry(c: Command, delta: int, cause: Cause): PendingEntry {
    PendingEntry(delta, Local, cause, Some(c.invoiceId), c.actor, c.correlationId)
  }

  function Resolve(currency: string, programCurrency: string, rate: Option<ScaledRate>): FxResolution {
    if currency == programCurrency then SameCurrency
    else if rate.Some? then Rate(rate.value) else Unavailable
  }

  function ReserveWork(a: Account, c: Command, amount: int, currency: string, rate: Option<ScaledRate>, now: Time): Work {
    var p := a.program.position;
    if Locate(a.reservations, c.invoiceId) < |a.reservations| then Refuses(DuplicateInvoice)
    else
      match DecideReservation(p, amount, Resolve(currency, p.currency, rate))
      case Failure(code) => Refuses(code)
      case Success(d) =>
        var row := NewReservation(c, amount, currency, p.currency, d, now);
        if !RowFits(row) then Fails(OutOfRange)
        else if !RowChecks(row) then Fails(CheckViolation)
        else
          match Persist(a.(reservations := a.reservations + [row]), [LocalEntry(c, d.reserved, Reservation)], now, false)
          case Failure(f) => Fails(f)
          case Success(b) => Done(b, Body(row, b.program))
  }

  /** Persists one LOCAL entry and rewrites one reservation row. */
  function Settle(a: Account, i: nat, row: ReservationRow, entry: PendingEntry, now: Time): Work
    requires i < |a.reservations|
  {
    match Persist(a, [entry], now, false)
    case Failure(f) => Fails(f)
    case Success(b) =>
      if !RowFits(row) then Fails(OutOfRange)
      else if !RowChecks(row) then Fails(CheckViolation)
      else Done(b.(reservations := b.reservations[i := row]), Body(row, b.program))
  }

  function ReleaseWork(a: Account, c: Command, amount: int, currency: string, now: Time): Work {
    var i := Locate(a.reservations, c.invoiceId);
    if !a.program.position.positionVerified then Refuses(PositionUnverified)
    else if i == |a.reservations| then Refuses(NotFound)
    else
      match ReleasePolicy(amount, currency, a.reservations[i], RateOf(a.reservations[i]))
      case Failure(code) => Refuses(code)
      case Success(d) =>
        Settle(a, i, Released(a.reservations[i], d).(updatedAt := now), LocalEntry(c, -d.delta, Release), now)
  }

  function CancelWork(a: Account, c: Command, now: Time): Work {
    var i := Locate(a.reservations, c.invoiceId);
    if !a.program.position.positionVerified then Refuses(PositionUnverified)
    else if i == |a.reservations| then Refuses(NotFound)
    else
      match CancelPolicy(a.reservations[i])
      case Failure(code) => Refuses(code)
      case Success(d) =>
        Settle(a, i, CancelledRow(a.reservations[i], d).(updatedAt := now), LocalEntry(c, -d.delta, d.cause), now)
  }

  function WorkOf(a: Account, c: Command, rate: Option<ScaledRate>, now: Time): Work {
    match c.action
    case ReserveAction(amount, currency) => ReserveWork(a, c, amount, currency, rate, now)
    case ReleaseAction(amount, currency) => ReleaseWork(a, c, amount, currency, now)
    case CancelAction(_, _) => CancelWork(a, c, now)
  }

  // ---------- Idempotency ----------

  function OperationOf(c: Command): Operation {
    match c.action
    case ReserveAction(_, _) => ReserveOp
    case ReleaseAction(_, _) => ReleaseOp
    case CancelAction(_, _) => CancelOp
  }

  /** The text whose SHA-256 is the content fingerprint. */
  function Fingerprint(c: Command): string {
    c.programId + "|" + c.invoiceId + "|" +
    match c.action
    case ReserveAction(amount, currency) => ToDecimalString(amount, 0) + "|" + currency
    case ReleaseAction(amount, currency) => ToDecimalString(amount, 0) + "|" + currency
    case CancelAction(reason, note) => reason + "|" + if note.Some? then note.value else ""
  }

  function KeyOf(c: Command): (string, string) {
    (c.organisationId, c.requestId)
  }

  datatype BeginDecision = Begins | Replays(outcome: Body) | Rejects(code: Refusal)

  /** What `begin` answers, given the record that is there before it tries to insert its own. */
  function BeginOf(requests: map<(string, string), RequestRecord>, c: Command): BeginDecision {
    if KeyOf(c) !in requests then Begins
    else
      var record := requests[KeyOf(c)];
      if record.operation != OperationOf(c) || record.fingerprint != Fingerprint(c) then Rejects(IdempotencyConflict)
      else
        match record.state
        case Pending => Rejects(RequestInFlight)
        case Expired => Rejects(IdempotencyExpired)
        case Complete(outcome) => Replays(outcome)
  }

  /** Idempotency, then the work, then the completed record: all of it or nothing. */
  function Conclude(db: Db, c: Command, work: Work, now: Time): (Db, RequestResult) {
    match BeginOf(db.requests, c)
    case Rejects(code) => (db, Refused(code))
    case Replays(outcome) => (db, Replayed(outcome))
    case Begins =>
      match work
      case Refuses(code) => (db, Refused(code))
      case Fails(f) => (db, Faulted(f))
      case Done(account, body) =>
        (db.(accounts := db.accounts[c.programId := account],
             requests := db.requests[KeyOf(c) := RequestRecord(OperationOf(c), Fingerprint(c), Complete(body), now)]),
         Created(body))
  }

  function RunRequest(db: Db, c: Command, rate: Option<ScaledRate>, now: Time): (Db, RequestResult) {
    if c.programId !in db.accounts then (db, Faulted(ProgramNotFound))
    else Conclude(db, c, WorkOf(db.accounts[c.programId], c, rate, now), now)
  }

  function Swept(record: RequestRecord, cutoff: Time): RequestRecord {
    if record.state.Complete? && record.recordedAt < cutoff then record.(state := Expired) else record
  }

  function RunSweep(db: Db, cutoff: Time): Db {
    db.(requests := map k | k in db.requests :: Swept(db.requests[k], cutoff))
  }

  // ---------- Processed messages and stream positions ----------

  datatype Query = ById(messageId: string) | ByVersion(programId: string, kind: MessageKind, version: int)

  predicate Matches(row: ProcessedRow, q: Query) {
    match q
    case ById(id) => row.messageId == id
    case ByVersion(programId, kind, version) => row.programId == programId && row.kind == kind && row.version == version
  }

  /** The first matching row of processed_message. */
  function Find(rows: seq<ProcessedRow>, q: Query): (r: Option<ProcessedRow>)
    ensures r.Some? ==> r.value in rows && Matches(r.value, q)
    ensures r.None? ==> forall row :: row in rows ==> !Matches(row, q)
  {
    if rows == [] then None
    else if Matches(rows[0], q) then Some(rows[0])
    else Find(rows[1..], q)
  }

  function LocateStream(rows: seq<StreamRow>, topic: string, partition: int): (i: nat)
    ensures i <= |rows|
    ensures i < |rows| ==> rows[i].topic == topic && rows[i].partition == partition
    ensures forall k :: 0 <= k < i ==> !(rows[k].topic == topic && rows[k].partition == partition)
  {
    if rows == [] || (rows[0].topic == topic && rows[0].partition == partition) then 0
    else 1 + LocateStream(rows[1..], topic, partition)
  }

  /** INSERT ... ON CONFLICT DO UPDATE, only when the stored offset is behind. */
  function Upsert(rows: seq<StreamRow>, at: Coordinates, now: Time): seq<StreamRow> {
    var i := LocateStream(rows, at.topic, at.partition);
    var row := StreamRow(at.topic, at.partition, at.offset, now);
    if i == |rows| then rows + [row]
    else if rows[i].offset < at.offset then rows[i := row]
    else rows
  }

  /** The guarded update that keeps the applied time monotone. */
  function Latest(stored: Option<Time>, t: Time): Option<Time> {
    if stored.Some? && stored.value >= t then stored else Some(t)
  }

  // ---------- Treasury events ----------

  function EventContentOf(e: CapacityEvent): Content {
    EventContent(e.eventType, e.amount, e.currency, e.reference)
  }

  function ProcessedEvent(e: CapacityEvent): ProcessedRow {
    ProcessedRow(e.messageId, e.programId, EventKind, e.version, EventContentOf(e))
  }

  predicate Names(r: ReservationRow, reference: Option<string>) {
    reference.Some? && r.treasuryReference == reference
  }

  /** A booking or release that refers to a reservation this service made. */
  predicate IsEcho(rows: seq<ReservationRow>, e: CapacityEvent) {
    !e.eventType.LimitChanged? && exists k :: 0 <= k < |rows| && Names(rows[k], e.reference)
  }

  function EchoRow(r: ReservationRow, e: CapacityEvent, now: Time): ReservationRow {
    if Names(r, e.reference) && !r.acknowledged then
      r.(acknowledged := true, acknowledgedByVersion := Some(e.version), updatedAt := now)
    else r
  }

  function EchoRows(rows: seq<ReservationRow>, e: CapacityEvent, now: Time): seq<ReservationRow> {
    seq(|rows|, k requires 0 <= k < |rows| => EchoRow(rows[k], e, now))
  }

  function EventEntry(e: CapacityEvent, creditLimit: int): PendingEntry {
    var correlationId := if e.correlationId.Some? then e.correlationId.value else e.messageId;
    var origin := if e.reference.Some? then e.reference else Some(e.messageId);
    match e.eventType
    case ReservationBooked => PendingEntry(e.amount, Treasury, TreasuryEvent, origin, "treasury", correlationId)
    case ReservationReleased => PendingEntry(-e.amount, Treasury, TreasuryEvent, origin, "treasury", correlationId)
    case LimitChanged => PendingEntry(e.amount - creditLimit, Limit, LimitChange, Some(e.messageId), "treasury", correlationId)
  }

  /** What a first delivery of an event does to its program. */
  function EventWork(a: Account, e: CapacityEvent, at: Coordinates, now: Time): Result<Account, Fault> {
    if IsEcho(a.reservations, e) then
      Success(a.(reservations := EchoRows(a.reservations, e, now),
                 positions := Upsert(a.positions, at, now),
                 program := a.program.(appliedEffectiveAt := Latest(a.program.appliedEffectiveAt, e.effectiveAt))))
    else
      match Persist(a, [EventEntry(e, a.program.position.creditLimit)], now, false)
      case Failure(f) => Failure(f)
      case Success(b) =>
        Success(b.(positions := Upsert(b.positions, at, now),
                   program := b.program.(appliedEffectiveAt := Latest(b.program.appliedEffectiveAt, e.effectiveAt))))
  }

  /** The unlocked inspection: its reads of the id, the program and the version may each see a state of their own. */
  function InspectEventOver(ids: Db, programs: Db, versions: Db, e: CapacityEvent): InspectResult {
    if Find(ids.processed, ById(e.messageId)).Some? then Skip
    else if e.programId !in programs.accounts then Quarantine(UnknownProgram)
    else if programs.accounts[e.programId].program.position.currency != e.currency then Quarantine(CurrencyMismatched)
    else if !FitsInt64(e.version) then InspectFaulted(OutOfRange)
    else
      match Find(versions.processed, ByVersion(e.programId, EventKind, e.version))
      case Some(row) => if row.content == EventContentOf(e) then Skip else Quarantine(VersionConflict)
      case None => Proceed
  }

  function InspectEvent(db: Db, e: CapacityEvent): InspectResult {
    InspectEventOver(db, db, db, e)
  }

  /** The checks made under the lock, then the work and the processed row; all of it or nothing. */
  function ConcludeEvent(db: Db, e: CapacityEvent, work: Result<Account, Fault>, echo: bool): (Db, ApplyResult) {
    match Find(db.processed, ByVersion(e.programId, EventKind, e.version))
    case Some(row) =>
      (db, if row.messageId == e.messageId || row.content == EventContentOf(e) then AlreadyApplied
           else Quarantined(VersionConflict))
    case None =>
      if Find(db.processed, ById(e.messageId)).Some? then (db, AlreadyApplied)
      else
        match work
        case Failure(f) => (db, ApplyFaulted(f))
        case Success(b) =>
          (db.(accounts := db.accounts[e.programId := b], processed := db.processed + [ProcessedEvent(e)]),
           if echo then EchoSuppressed else Applied)
  }

  function RunEvent(db: Db, e: CapacityEvent, at: Coordinates, now: Time): (Db, ApplyResult) {
    if e.programId !in db.accounts then (db, Quarantined(UnknownProgram))
    else
      var a := db.accounts[e.programId];
      if a.program.position.currency != e.currency then (db, Quarantined(CurrencyMismatched))
      else if !FitsInt64(e.version) then (db, ApplyFaulted(OutOfRange))
      else ConcludeEvent(db, e, EventWork(a, e, at, now), IsEcho(a.reservations, e))
  }

  // ---------- Reconciliation snapshots ----------

  function SnapshotContentOf(s: Snapshot): Content {
    SnapshotContent(s.currency, s.creditLimit, s.reserved, s.effectiveAt, s.acknowledgement)
  }

  function ProcessedSnapshot(s: Snapshot): ProcessedRow {
    ProcessedRow(s.messageId, s.programId, SnapshotKind, s.version, SnapshotContentOf(s))
  }

  function CorrectionFor(s: Snapshot, component: Component, delta: int): seq<PendingEntry> {
    if delta == 0 then [] else
      [PendingEntry(delta, component, ReconciliationAdjustment, Some(s.messageId), "treasury",
                    if s.correlationId.Some? then s.correlationId.value else s.messageId)]
  }

  /** One entry for each component that moves. */
  function Corrections(s: Snapshot, d: SnapshotDeltas): seq<PendingEntry> {
    CorrectionFor(s, Treasury, d.treasury) + CorrectionFor(s, Local, d.local) + CorrectionFor(s, Limit, d.limit)
  }

  /** UPDATE ... WHERE id = ANY(ids) */
  function MarkIds(rows: seq<ReservationRow>, ids: seq<string>, version: int, now: Time): seq<ReservationRow> {
    seq(|rows|, k requires 0 <= k < |rows| =>
      if rows[k].invoiceId in ids then
        rows[k].(acknowledged := true, acknowledgedByVersion := Some(version), updatedAt := now)
      else rows[k])
  }

  datatype SnapshotWork = Accepts(account: Account) | Declines(reason: QuarantineReason) | Breaks(fault: Fault)

  /** The writes that follow the entries: version and flags, acknowledgements, stream position. */
  function SnapshotWritten(b: Account, s: Snapshot, ids: seq<string>, investigate: bool, at: Coordinates, now: Time): Account {
    var q := b.program.position;
    b.(program := b.program.(
         position := q.(investigationRequired := q.investigationRequired || investigate, positionVerified := true),
         treasuryVersion := s.version, treasuryEffectiveAt := Some(s.effectiveAt),
         appliedEffectiveAt := Latest(b.program.appliedEffectiveAt, s.effectiveAt)),
       reservations := MarkIds(b.reservations, ids, s.version, now),
       positions := Upsert(b.positions, at, now))
  }

  /** What an accepted snapshot writes to its program. */
  function SnapshotWorkOf(a: Account, s: Snapshot, marker: Marker, at: Coordinates, now: Time, basisPoints: int): SnapshotWork {
    var p := a.program.position;
    match SnapshotPolicy(p, s.version, s.reserved, s.creditLimit, marker, a.reservations)
    case Refuse => Declines(SnapshotInconsistent)
    case Apply(ids, investigate, d) =>
      if ExceedsMagnitudeGuard(d.treasury, p.creditLimit, basisPoints) then Declines(ImplausibleDelta)
      else
        match Persist(a, Corrections(s, d), now, true)
        case Failure(f) => Breaks(f)
        case Success(b) => Accepts(SnapshotWritten(b, s, ids, investigate, at, now))
  }

  function InspectSnapshotOver(ids: Db, programs: Db, versions: Db, s: Snapshot): InspectResult {
    if Find(ids.processed, ById(s.messageId)).Some? then Skip
    else if s.programId !in programs.accounts then Quarantine(UnknownProgram)
    else if programs.accounts[s.programId].program.position.currency != s.currency then Quarantine(CurrencyMismatched)
    else
      var applied := programs.accounts[s.programId].program.treasuryVersion;
      if s.version < applied then Skip
      else if s.version == applied then
        match Find(versions.processed, ByVersion(s.programId, SnapshotKind, s.version))
        case Some(row) => if row.content == SnapshotContentOf(s) then Skip else Quarantine(VersionConflict)
        case None => Proceed
      else Proceed
  }

  function InspectSnapshot(db: Db, s: Snapshot): InspectResult {
    InspectSnapshotOver(db, db, db, s)
  }

  function ConcludeSnapshot(db: Db, s: Snapshot, applied: int, work: SnapshotWork): (Db, ApplyResult) {
    if Find(db.processed, ById(s.messageId)).Some? then (db, Ignored)
    else
      match Find(db.processed, ByVersion(s.programId, SnapshotKind, s.version))
      case Some(row) => (db, if row.content == SnapshotContentOf(s) then Ignored else Quarantined(VersionConflict))
      case None =>
        if s.version < applied then (db, Ignored)
        else
          match work
          case Declines(reason) => (db, Quarantined(reason))
          case Breaks(f) => (db, ApplyFaulted(f))
          case Accepts(b) =>
            (db.(accounts := db.accounts[s.programId := b], processed := db.processed + [ProcessedSnapshot(s)]), Applied)
  }

  function RunSnapshot(db: Db, s: Snapshot, at: Coordinates, now: Time, basisPoints: int): (Db, ApplyResult) {
    if s.acknowledgement.None? then (db, Quarantined(MissingAckMarker))
    else if s.programId !in db.accounts then (db, Quarantined(UnknownProgram))
    else
      var a := db.accounts[s.programId];
      if a.program.position.currency != s.currency then (db, Quarantined(CurrencyMismatched))
      else
        ConcludeSnapshot(db, s, a.program.treasuryVersion,
                         SnapshotWorkOf(a, s, s.acknowledgement.value, at, now, basisPoints))
  }

  // ---------- Background jobs ----------

  predicate CountsForRecovery(row: LedgerRow) {
    row.entry.actor == "treasury"
    && (row.entry.cause.TreasuryEvent? || row.entry.cause.LimitChange? || row.entry.cause.ReconciliationAdjustment?)
  }

  function Max(a: Option<Time>, t: Time): Option<Time> {
    if a.Some? && a.value >= t then a else Some(t)
  }

  /** MAX(occurred_at) over the treasury entries, NULL when there are none. */
  function LedgerAt(ledger: seq<LedgerRow>): Option<Time> {
    if ledger == [] then None else
      var last := ledger[|ledger| - 1];
      var rest := LedgerAt(ledger[..|ledger| - 1]);
      if CountsForRecovery(last) then Max(rest, last.occurredAt) else rest
  }

  /** MAX(updated_at) over the program's stream positions. */
  function PositionAt(rows: seq<StreamRow>): Option<Time> {
    if rows == [] then None else Max(PositionAt(rows[..|rows| - 1]), rows[|rows| - 1].updatedAt)
  }

  /** A verified program whose newest treasury entry is newer than its newest stream position. */
  predicate Unverifiable(a: Account) {
    && a.program.position.positionVerified
    && LedgerAt(a.ledger).Some?
    && !(PositionAt(a.positions).Some? && PositionAt(a.positions).value >= LedgerAt(a.ledger).value)
  }

  predicate OpenLocal(r: ReservationRow) { r.origin.LocalOrigin? && !Terminal(r.status) }

  predicate Drifted(a: Account) {
    Outstanding(a.reservations, OpenLocal) != a.program.position.localReserved
  }

  function Flag(db: Db, programId: string, verified: bool, investigate: bool): Db
    requires programId in db.accounts
  {
    var a := db.accounts[programId];
    var p := a.program.position;
    db.(accounts := db.accounts[programId := a.(program := a.program.(position :=
      p.(positionVerified := p.positionVerified && verified,
         investigationRequired := p.investigationRequired || investigate)))])
  }

  // ---------- The database over time ----------

  datatype Op =
    | Request(c: Command, rate: Option<ScaledRate>, now: Time)
    | DeliverEvent(e: CapacityEvent, at: Coordinates, now: Time)
    | DeliverSnapshot(s: Snapshot, at: Coordinates, now: Time, basisPoints: int)
    | Sweep(cutoff: Time)
    | DetectRead
    | DetectWrite(programId: string)
    | DriftRead
    | DriftWrite(programId: string)
    | Seed(programId: string, organisation: string, currency: string, creditLimit: int, now: Time)
    | AssignReference(programId: string, invoiceId: string, reference: string)
    | LosePositions(programId: string)

  function NewProgram(organisation: string, currency: string, now: Time): Account {
    Account(Program(organisation, Position(currency, 0, 0, 0, 1, None, false, true), 0, None, None, now), [], [], [])
  }

  /** The seed inserts a program with zero defaults and sets its limit through the ledger. */
  function RunSeed(db: Db, programId: string, organisation: string, currency: string, creditLimit: int, now: Time): Db {
    if programId in db.accounts then db
    else
      var entry := PendingEntry(creditLimit, Limit, LimitChange, None, "seed", "seed-limit-change");
      match Persist(NewProgram(organisation, currency, now), [entry], now, false)
      case Failure(_) => db
      case Success(a) => db.(accounts := db.accounts[programId := a])
  }

  /** No modelled code writes treasury_reference; it is assigned from outside. */
  function RunAssign(db: Db, programId: string, invoiceId: string, reference: string): Db {
    if programId !in db.accounts then db
    else
      var a := db.accounts[programId];
      var i := Locate(a.reservations, invoiceId);
      if i == |a.reservations| then db
      else
        var row := a.reservations[i].(treasuryReference := Some(reference));
        db.(accounts := db.accounts[programId := a.(reservations := a.reservations[i := row])])
  }

  function Step(db: Db, op: Op): Db {
    match op
    case Request(c, rate, now) => RunRequest(db, c, rate, now).0
    case DeliverEvent(e, at, now) => RunEvent(db, e, at, now).0
    case DeliverSnapshot(s, at, now, basisPoints) => RunSnapshot(db, s, at, now, basisPoints).0
    case Sweep(cutoff) => RunSweep(db, cutoff)
    case DetectRead => db.(suspects := db.suspects + set p | p in db.accounts && Unverifiable(db.accounts[p]))
    case DetectWrite(p) =>
      if p in db.suspects && p in db.accounts then Flag(db, p, false, false).(suspects := db.suspects - {p}) else db
    case DriftRead => db.(drifted := db.drifted + set p | p in db.accounts && Drifted(db.accounts[p]))
    case DriftWrite(p) =>
      if p in db.drifted && p in db.accounts then Flag(db, p, true, true).(drifted := db.drifted - {p}) else db
    case Seed(p, organisation, currency, creditLimit, now) => RunSeed(db, p, organisation, currency, creditLimit, now)
    case AssignReference(p, invoiceId, reference) => RunAssign(db, p, invoiceId, reference)
    case LosePositions(p) =>
      if p in db.accounts then db.(accounts := db.accounts[p := db.accounts[p].(positions := [])]) else db
  }

  /** Amounts and versions in the ranges the request and message parsers accept. */
  predicate WellFormed(op: Op) {
    match op
    case DeliverSnapshot(s, _, _, _) => Parsed(s)
    case _ => true
  }

  function Run(db: Db, ops: seq<Op>): Db {
    if ops == [] then db else Step(Run(db, ops[..|ops| - 1]), ops[|ops| - 1])
  }
}
