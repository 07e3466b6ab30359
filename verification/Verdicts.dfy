/**
 * What an inspection and an apply answer for each message, on the recorded ids, versions and contents,
 * the programs and the reservations' own columns.
 */
module Verdicts {
  import opened Wrappers
  import opened Arithmetic
  import opened Domain
  import opened Policies
  import opened Tables
  import opened Ledger
  import opened Book
  import opened Runs
  import opened Evolution
  import opened Guarantees
  import opened Outcomes
  import opened Answers

  // ---------- What is recorded ----------

  predicate IdRecorded(rows: seq<ProcessedRow>, id: string) {
    exists k :: 0 <= k < |rows| && rows[k].messageId == id
  }

  /** Row `k` records this version of this kind for the program. */
  predicate IsVersion(row: ProcessedRow, programId: string, kind: MessageKind, version: int) {
    row.programId == programId && row.kind == kind && row.version == version
  }

  predicate VersionRecorded(rows: seq<ProcessedRow>, programId: string, kind: MessageKind, version: int) {
    exists k :: 0 <= k < |rows| && IsVersion(rows[k], programId, kind, version)
  }

  predicate VersionRecordedWith(rows: seq<ProcessedRow>, programId: string, kind: MessageKind, version: int, content: Content) {
    exists k :: 0 <= k < |rows| && IsVersion(rows[k], programId, kind, version) && rows[k].content == content
  }

  predicate VersionRecordedAs(rows: seq<ProcessedRow>, programId: string, kind: MessageKind, version: int, id: string) {
    exists k :: 0 <= k < |rows| && IsVersion(rows[k], programId, kind, version) && rows[k].messageId == id
  }

  lemma FindsId(rows: seq<ProcessedRow>, id: string)
    ensures Find(rows, ById(id)).Some? <==> IdRecorded(rows, id)
  {
    assert forall k :: 0 <= k < |rows| ==> rows[k] in rows;
  }

  /** With at most one row per version, the one found decides. */
  lemma FindsVersion(rows: seq<ProcessedRow>, programId: string, kind: MessageKind, version: int, content: Content)
    requires UniqueVersions(rows)
    ensures var found := Find(rows, ByVersion(programId, kind, version));
      && (found.Some? <==> VersionRecorded(rows, programId, kind, version))
      && (found.Some? && found.value.content == content <==> VersionRecordedWith(rows, programId, kind, version, content))
      && (forall id :: found.Some? && found.value.messageId == id <==> VersionRecordedAs(rows, programId, kind, version, id))
  {
    var found := Find(rows, ByVersion(programId, kind, version));
    assert forall k :: 0 <= k < |rows| ==> rows[k] in rows;
    if found.Some? {
      var i :| 0 <= i < |rows| && rows[i] == found.value;
      assert IsVersion(rows[i], programId, kind, version);
      forall k | 0 <= k < |rows| && IsVersion(rows[k], programId, kind, version) ensures k == i {
      }
    }
  }

  // ---------- Inspection of events ----------

  /** The four fields that decide whether two events are the same. */
  function EventFields(e: CapacityEvent): Content {
    EventContent(e.eventType, e.amount, e.currency, e.reference)
  }

  /** What an inspection answers, whatever states its three reads see. */
  function EventInspected(ids: Db, programs: Db, versions: Db, e: CapacityEvent): InspectResult {
    if IdRecorded(ids.processed, e.messageId) then Skip
    else if e.programId !in programs.accounts then Quarantine(UnknownProgram)
    else if programs.accounts[e.programId].program.position.currency != e.currency then Quarantine(CurrencyMismatched)
    else if !In64Bits(e.version) then InspectFaulted(OutOfRange)
    else if !VersionRecorded(versions.processed, e.programId, EventKind, e.version) then Proceed
    else if VersionRecordedWith(versions.processed, e.programId, EventKind, e.version, EventFields(e)) then Skip
    else Quarantine(VersionConflict)
  }

  lemma {:induction false} EventInspection(ids: Db, programs: Db, versions: Db, e: CapacityEvent)
    requires UniqueVersions(versions.processed)
    ensures InspectEventOver(ids, programs, versions, e) == EventInspected(ids, programs, versions, e)
  {
    FindsId(ids.processed, e.messageId);
    FindsVersion(versions.processed, e.programId, EventKind, e.version, EventFields(e));
  }

  // ---------- Inspection of snapshots ----------

  /** The five fields that decide whether two snapshots are the same. */
  function SnapshotFields(s: Snapshot): Content {
    SnapshotContent(s.currency, s.creditLimit, s.reserved, s.effectiveAt, s.acknowledgement)
  }

  function SnapshotInspected(ids: Db, programs: Db, versions: Db, s: Snapshot): InspectResult {
    if IdRecorded(ids.processed, s.messageId) then Skip
    else if s.programId !in programs.accounts then Quarantine(UnknownProgram)
    else
      var program := programs.accounts[s.programId].program;
      if program.position.currency != s.currency then Quarantine(CurrencyMismatched)
      else if s.version < program.treasuryVersion then Skip
      else if s.version > program.treasuryVersion || !VersionRecorded(versions.processed, s.programId, SnapshotKind, s.version) then Proceed
      else if VersionRecordedWith(versions.processed, s.programId, SnapshotKind, s.version, SnapshotFields(s)) then Skip
      else Quarantine(VersionConflict)
  }

  lemma {:induction false} SnapshotInspection(ids: Db, programs: Db, versions: Db, s: Snapshot)
    requires UniqueVersions(versions.processed)
    ensures InspectSnapshotOver(ids, programs, versions, s) == SnapshotInspected(ids, programs, versions, s)
  {
    FindsId(ids.processed, s.messageId);
    FindsVersion(versions.processed, s.programId, SnapshotKind, s.version, SnapshotFields(s));
  }

  // ---------- Applying events ----------

  /** Some reservation of the program carries the event's reference. */
  predicate Named(a: Account, e: CapacityEvent) {
    e.reference.Some? && exists k :: 0 <= k < |a.reservations| && a.reservations[k].treasuryReference == e.reference
  }

  predicate Suppressed(a: Account, e: CapacityEvent) {
    (e.eventType == ReservationBooked || e.eventType == ReservationReleased) && Named(a, e)
  }

  /** The entry of an event that is not an echo. */
  function TreasuryEntry(a: Account, e: CapacityEvent): PendingEntry {
    PendingEntry(
      match e.eventType {
        case ReservationBooked => e.amount
        case ReservationReleased => -e.amount
        case LimitChanged => e.amount - a.program.position.creditLimit
      },
      if e.eventType == LimitChanged then Limit else Treasury,
      if e.eventType == LimitChanged then LimitChange else TreasuryEvent,
      if e.eventType == LimitChanged || e.reference.None? then Some(e.messageId) else e.reference,
      "treasury",
      if e.correlationId.Some? then e.correlationId.value else e.messageId)
  }

  /** What the event would make of the component it is about. */
  function Resulting(a: Account, e: CapacityEvent): int {
    match e.eventType
    case ReservationBooked => a.program.position.treasuryReserved + e.amount
    case ReservationReleased => a.program.position.treasuryReserved - e.amount
    case LimitChanged => e.amount
  }

  /** The newer of the applied time and another. */
  function NewestApplied(stored: Option<Time>, t: Time): Option<Time> {
    if stored.None? || stored.value < t then Some(t) else stored
  }

  /** The rows of one stream after a message at these coordinates: one row per stream, moved forward only. */
  predicate Stamped(rows: seq<StreamRow>, at: Coordinates, now: Time, after: seq<StreamRow>) {
    var row := StreamRow(at.topic, at.partition, at.offset, now);
    || (after == rows + [row] && forall k :: 0 <= k < |rows| ==> !(rows[k].topic == at.topic && rows[k].partition == at.partition))
    || exists i :: 0 <= i < |rows| && rows[i].topic == at.topic && rows[i].partition == at.partition
         && after == (if rows[i].offset < at.offset then rows[i := row] else rows)
  }

  lemma UpsertStampsStream(rows: seq<StreamRow>, at: Coordinates, now: Time)
    ensures Stamped(rows, at, now, Upsert(rows, at, now))
  {
  }

  /** A row after an echo: named rows become acknowledged by the event's version, unless they were already. */
  function EchoedRow(r: ReservationRow, e: CapacityEvent, now: Time): ReservationRow {
    if e.reference.Some? && r.treasuryReference == e.reference && !r.acknowledged then
      r.(acknowledged := true, acknowledgedByVersion := Some(e.version), updatedAt := now)
    else r
  }

  /** The account after an event takes effect, apart from its stream positions. */
  predicate EventWritten(a: Account, e: CapacityEvent, at: Coordinates, now: Time, b: Account) {
    && Stamped(a.positions, at, now, b.positions)
    && var base := if Suppressed(a, e) then
         a.(reservations := seq(|a.reservations|, k requires 0 <= k < |a.reservations| => EchoedRow(a.reservations[k], e, now)))
       else AfterEntry(a, TreasuryEntry(a, e), now);
       b == base.(positions := b.positions,
                  program := base.program.(appliedEffectiveAt := NewestApplied(a.program.appliedEffectiveAt, e.effectiveAt)))
  }

  lemma EchoIsNamed(a: Account, e: CapacityEvent)
    ensures IsEcho(a.reservations, e) <==> Suppressed(a, e)
  {
    forall k | 0 <= k < |a.reservations|
      ensures Names(a.reservations[k], e.reference) <==> e.reference.Some? && a.reservations[k].treasuryReference == e.reference
    {
    }
  }

  lemma EventWorkIs(a: Account, e: CapacityEvent, at: Coordinates, now: Time)
    requires LedgerInv(a) && FitsInt64(e.amount)
    ensures var work := EventWork(a, e, at, now);
      && (work.Failure? <==> !Suppressed(a, e) && !(0 <= Resulting(a, e) <= 9223372036854775807))
      && (work.Success? ==> EventWritten(a, e, at, now, work.value))
  {
    var entry := EventEntry(e, a.program.position.creditLimit);
    EchoIsNamed(a, e);
    EventDoes(a, e, at, now);
    UpsertStampsStream(a.positions, at, now);
    assert entry == TreasuryEntry(a, e);
    if Suppressed(a, e) {
      assert EchoRows(a.reservations, e, now) == seq(|a.reservations|, k requires 0 <= k < |a.reservations| => EchoedRow(a.reservations[k], e, now));
    } else if EventWork(a, e, at, now).Success? {
      PersistIs(a, entry, now);
    }
  }

  /** What an apply answers. */
  function EventVerdict(db: Db, e: CapacityEvent): ApplyResult {
    if e.programId !in db.accounts then Quarantined(UnknownProgram)
    else
      var a := db.accounts[e.programId];
      if a.program.position.currency != e.currency then Quarantined(CurrencyMismatched)
      else if !In64Bits(e.version) then ApplyFaulted(OutOfRange)
      else if VersionRecorded(db.processed, e.programId, EventKind, e.version) then
        if VersionRecordedAs(db.processed, e.programId, EventKind, e.version, e.messageId)
           || VersionRecordedWith(db.processed, e.programId, EventKind, e.version, EventFields(e)) then AlreadyApplied
        else Quarantined(VersionConflict)
      else if IdRecorded(db.processed, e.messageId) then AlreadyApplied
      else if Suppressed(a, e) then EchoSuppressed
      else if !In64Bits(TreasuryEntry(a, e).delta) || Resulting(a, e) > 9223372036854775807 then ApplyFaulted(OutOfRange)
      else if Resulting(a, e) < 0 then ApplyFaulted(CheckViolation)
      else Applied
  }

  lemma FaultKind(a: Account, e: CapacityEvent, at: Coordinates, now: Time)
    requires LedgerInv(a) && FitsInt64(e.amount) && EventWork(a, e, at, now).Failure?
    ensures EventWork(a, e, at, now).error ==
      if !In64Bits(TreasuryEntry(a, e).delta) || Resulting(a, e) > 9223372036854775807 then OutOfRange else CheckViolation
  {
    var entry := EventEntry(e, a.program.position.creditLimit);
    EventWorkIs(a, e, at, now);
    EchoIsNamed(a, e);
    OneEntry(entry);
    assert entry == TreasuryEntry(a, e);
    var r := Advance(a.program.position, [entry], now);
    assert r.entries[0].entry == entry;
    assert forall k :: 0 < k < |r.entries| ==> r.entries[k].entry.delta == 0;
  }

  /**
   * In every run the apply of an event answers as the table says. It changes something only when it is
   * applied or suppressed as an echo: then it writes exactly one entry, or exactly the acknowledgement of
   * the rows that carry its reference, and records itself.
   */
  lemma {:induction false} EventApplied(ops: seq<Op>, e: CapacityEvent, at: Coordinates, now: Time)
    requires AllWellFormed(ops) && FitsInt64(e.amount)
    ensures var db := Run(EMPTY, ops);
      var (after, answer) := RunEvent(db, e, at, now);
      && answer == EventVerdict(db, e)
      && if answer == Applied || answer == EchoSuppressed then
           && e.programId in db.accounts && e.programId in after.accounts
           && EventWritten(db.accounts[e.programId], e, at, now, after.accounts[e.programId])
           && after == db.(accounts := db.accounts[e.programId := after.accounts[e.programId]],
                           processed := db.processed + [ProcessedRow(e.messageId, e.programId, EventKind, e.version, EventFields(e))])
         else after == db
  {
    hide Run;
    EveryRunKeepsInv(ops);
    EventAppliedIn(Run(EMPTY, ops), e, at, now);
  }

  lemma ConcludesEventVerdict(db: Db, e: CapacityEvent, work: Result<Account, Fault>, echo: bool)
    requires UniqueVersions(db.processed)
    ensures ConcludeEvent(db, e, work, echo) ==
      if VersionRecorded(db.processed, e.programId, EventKind, e.version) then
        (db, if VersionRecordedAs(db.processed, e.programId, EventKind, e.version, e.messageId)
                || VersionRecordedWith(db.processed, e.programId, EventKind, e.version, EventFields(e)) then AlreadyApplied
             else Quarantined(VersionConflict))
      else if IdRecorded(db.processed, e.messageId) then (db, AlreadyApplied)
      else if work.Failure? then (db, ApplyFaulted(work.error))
      else
        (db.(accounts := db.accounts[e.programId := work.value],
             processed := db.processed + [ProcessedRow(e.messageId, e.programId, EventKind, e.version, EventFields(e))]),
         if echo then EchoSuppressed else Applied)
  {
    hide VersionRecorded, VersionRecordedAs, VersionRecordedWith, IdRecorded;
    FindsId(db.processed, e.messageId);
    FindsVersion(db.processed, e.programId, EventKind, e.version, EventFields(e));
  }

  lemma RunsTheEvent(db: Db, e: CapacityEvent, at: Coordinates, now: Time)
    requires e.programId in db.accounts
    ensures var a := db.accounts[e.programId];
      RunEvent(db, e, at, now) ==
        if a.program.position.currency != e.currency then (db, Quarantined(CurrencyMismatched))
        else if !In64Bits(e.version) then (db, ApplyFaulted(OutOfRange))
        else ConcludeEvent(db, e, EventWork(a, e, at, now), IsEcho(a.reservations, e))
  {
  }

  lemma EventAppliedIn(db: Db, e: CapacityEvent, at: Coordinates, now: Time)
    requires Inv(db) && FitsInt64(e.amount)
    ensures var (after, answer) := RunEvent(db, e, at, now);
      && answer == EventVerdict(db, e)
      && if answer == Applied || answer == EchoSuppressed then
           && e.programId in db.accounts && e.programId in after.accounts
           && EventWritten(db.accounts[e.programId], e, at, now, after.accounts[e.programId])
           && after == db.(accounts := db.accounts[e.programId := after.accounts[e.programId]],
                           processed := db.processed + [ProcessedRow(e.messageId, e.programId, EventKind, e.version, EventFields(e))])
         else after == db
  {
    if e.programId in db.accounts {
      hide RunEvent, ConcludeEvent, EventWork, AfterEntry, EventWritten, IsEcho, Suppressed, TreasuryEntry;
      hide VersionRecorded, VersionRecordedAs, VersionRecordedWith, IdRecorded;
      var a := db.accounts[e.programId];
      RunsTheEvent(db, e, at, now);
      ConcludesEventVerdict(db, e, EventWork(a, e, at, now), IsEcho(a.reservations, e));
      EventWorkIs(a, e, at, now);
      EchoIsNamed(a, e);
      if EventWork(a, e, at, now).Failure? { FaultKind(a, e, at, now); }
    }
  }

  /**
   * In every run a booking or a release that takes effect is applied when no reservation carries its
   * reference: TREASURY moves by exactly its amount and no reservation changes. When one does, it is
   * suppressed: position and ledger stay as they are, and exactly the rows that carry it are newly acknowledged.
   */
  lemma {:induction false} BookingsMoveOrAcknowledge(ops: seq<Op>, e: CapacityEvent, at: Coordinates, now: Time)
    requires AllWellFormed(ops) && FitsInt64(e.amount) && e.eventType != LimitChanged
    requires RunEvent(Run(EMPTY, ops), e, at, now).1 in {Applied, EchoSuppressed}
    ensures e.programId in Run(EMPTY, ops).accounts && e.programId in RunEvent(Run(EMPTY, ops), e, at, now).0.accounts
    ensures var a, b := Run(EMPTY, ops).accounts[e.programId], RunEvent(Run(EMPTY, ops), e, at, now).0.accounts[e.programId];
      var answer, rows := RunEvent(Run(EMPTY, ops), e, at, now).1, a.reservations;
      if e.reference.None? || (forall k :: 0 <= k < |rows| ==> rows[k].treasuryReference != e.reference) then
        && answer == Applied && b.reservations == rows
        && b.program.position.localReserved == a.program.position.localReserved
        && b.program.position.creditLimit == a.program.position.creditLimit
        && b.program.position.treasuryReserved
           == a.program.position.treasuryReserved + (if e.eventType == ReservationBooked then e.amount else -e.amount)
      else
        && answer == EchoSuppressed && b.program.position == a.program.position && b.ledger == a.ledger
        && |b.reservations| == |rows|
        && forall k :: 0 <= k < |rows| ==>
             if rows[k].treasuryReference == e.reference && !rows[k].acknowledged then
               b.reservations[k] == rows[k].(acknowledged := true, acknowledgedByVersion := Some(e.version), updatedAt := now)
             else b.reservations[k] == rows[k]
  {
    hide Run, RunEvent;
    EventApplied(ops, e, at, now);
    AnsweredByName(Run(EMPTY, ops), e);
  }

  lemma AssignedRow(db: Db, p: string, k: nat, reference: string)
    requires Inv(db) && p in db.accounts && k < |db.accounts[p].reservations|
    ensures var a := db.accounts[p];
      RunAssign(db, p, a.reservations[k].invoiceId, reference).accounts
        == db.accounts[p := a.(reservations := a.reservations[k := a.reservations[k].(treasuryReference := Some(reference))])]
  {
    var a := db.accounts[p];
    assert AccountInv(a);
    LocateIs(a.reservations, a.reservations[k].invoiceId, k);
  }

  /**
   * From any reachable state, once a reservation is given a treasury reference, the first booking or
   * release under that reference to take effect acknowledges the reservation and moves nothing.
   */
  lemma {:induction false} AssignedReferenceIsEchoed(ops: seq<Op>, p: string, k: nat, reference: string,
                                                     e: CapacityEvent, at: Coordinates, now: Time)
    requires AllWellFormed(ops) && p in Run(EMPTY, ops).accounts && k < |Run(EMPTY, ops).accounts[p].reservations|
    requires e.programId == p && e.reference == Some(reference) && e.eventType != LimitChanged && FitsInt64(e.amount)
    requires var given := Run(EMPTY, ops + [AssignReference(p, Run(EMPTY, ops).accounts[p].reservations[k].invoiceId, reference)]);
      RunEvent(given, e, at, now).1 in {Applied, EchoSuppressed}
    ensures var given := Run(EMPTY, ops + [AssignReference(p, Run(EMPTY, ops).accounts[p].reservations[k].invoiceId, reference)]);
      var (after, answer) := RunEvent(given, e, at, now);
      && answer == EchoSuppressed && p in after.accounts && k < |after.accounts[p].reservations|
      && after.accounts[p].reservations[k].acknowledged
      && after.accounts[p].program.position == Run(EMPTY, ops).accounts[p].program.position
  {
    hide Run, RunEvent, Inv;
    var db := Run(EMPTY, ops);
    var op := AssignReference(p, db.accounts[p].reservations[k].invoiceId, reference);
    EveryRunKeepsInv(ops);
    AssignedRow(db, p, k, reference);
    RunsOneMore(ops, op);
    BookingsMoveOrAcknowledge(ops + [op], e, at, now);
    assert Run(EMPTY, ops + [op]).accounts[p].reservations[k].treasuryReference == Some(reference);
  }

  lemma RunsOneMore(ops: seq<Op>, op: Op)
    ensures Run(EMPTY, ops + [op]) == Step(Run(EMPTY, ops), op)
  {
    assert (ops + [op])[..|ops|] == ops;
  }

  lemma AnsweredByName(db: Db, e: CapacityEvent)
    ensures EventVerdict(db, e) == Applied ==> !Suppressed(db.accounts[e.programId], e)
    ensures EventVerdict(db, e) == EchoSuppressed ==> Suppressed(db.accounts[e.programId], e)
  {
  }
}
