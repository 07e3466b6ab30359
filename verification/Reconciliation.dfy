/** What an applied snapshot does to each reservation, to the position and to the ledger, column by column. */
module Reconciliation {
  import opened Wrappers
  import opened Arithmetic
  import opened Domain
  import opened Policies
  import opened Tables
  import opened Ledger
  import opened Book
  import opened Runs
  import opened Evolution
  import opened Guarantees
  import opened Outcomes
  import opened Answers
  import opened Verdicts

  // ---------- Acknowledgement ----------

  /** The marker covers the reservation: its treasury reference is listed, or it was confirmed by the watermark. */
  predicate Covers(marker: Marker, r: ReservationRow) {
    match marker
    case Explicit(references) => r.treasuryReference.Some? && r.treasuryReference.value in references
    case Watermark(ingestedThrough) => r.confirmedAt <= ingestedThrough
  }

  /** Acknowledged once the marker has been applied. */
  function WillBeAcknowledged(marker: Marker): ReservationRow -> bool {
    (r: ReservationRow) => r.acknowledged || Covers(marker, r)
  }

  function StaysUnacknowledged(marker: Marker): ReservationRow -> bool {
    (r: ReservationRow) => !r.acknowledged && !Covers(marker, r)
  }

  /** A row after the snapshot: covered rows carry its version, unless one as new acknowledged them. */
  function AcknowledgedRow(marker: Marker, version: int, r: ReservationRow, now: Time): ReservationRow {
    if Covers(marker, r) && (r.acknowledgedByVersion.None? || r.acknowledgedByVersion.value < version) then
      r.(acknowledged := true, acknowledgedByVersion := Some(version), updatedAt := now)
    else r
  }

  function AcknowledgedRows(marker: Marker, version: int, rows: seq<ReservationRow>, now: Time): seq<ReservationRow> {
    seq(|rows|, k requires 0 <= k < |rows| => AcknowledgedRow(marker, version, rows[k], now))
  }

  lemma MarkIsCoverage(marker: Marker, version: int, r: ReservationRow)
    requires RowChecks(r)
    ensures MarkRow(marker, version, r).acknowledged <==> r.acknowledged || Covers(marker, r)
    ensures MarkRow(marker, version, r) == AcknowledgedRow(marker, version, r, r.updatedAt)
  {
  }

  lemma MarkedSums(marker: Marker, version: int, rows: seq<ReservationRow>)
    requires AllSound(rows)
    ensures Outstanding(Mark(marker, version, rows), AcknowledgedLocal) == Outstanding(rows, WillBeAcknowledged(marker))
    ensures Outstanding(Mark(marker, version, rows), UnacknowledgedLocal) == Outstanding(rows, StaysUnacknowledged(marker))
  {
    forall k | 0 <= k < |rows|
      ensures MarkRow(marker, version, rows[k]).acknowledged <==> rows[k].acknowledged || Covers(marker, rows[k])
    {
      MarkIsCoverage(marker, version, rows[k]);
    }
    OutstandingSame(rows, Mark(marker, version, rows), WillBeAcknowledged(marker), AcknowledgedLocal);
    OutstandingSame(rows, Mark(marker, version, rows), StaysUnacknowledged(marker), UnacknowledgedLocal);
  }

  lemma WrittenMarks(marker: Marker, version: int, rows: seq<ReservationRow>, now: Time)
    requires AllSound(rows) && DistinctInvoices(rows)
    ensures MarkIds(rows, AcknowledgedIds(marker, version, rows), version, now) == AcknowledgedRows(marker, version, rows, now)
  {
    forall k | 0 <= k < |rows|
      ensures rows[k].invoiceId in AcknowledgedIds(marker, version, rows) <==> Acknowledges(marker, version, rows[k])
    {
      AcknowledgedIdsAreThose(marker, version, rows, rows[k].invoiceId);
    }
  }

  // ---------- The answer ----------

  /** What applying a snapshot answers; no answer but Applied changes anything. */
  function SnapshotVerdict(db: Db, s: Snapshot, basisPoints: int): ApplyResult {
    if s.acknowledgement.None? then Quarantined(MissingAckMarker)
    else if s.programId !in db.accounts then Quarantined(UnknownProgram)
    else
      var a := db.accounts[s.programId];
      var p := a.program.position;
      var covered := Outstanding(a.reservations, WillBeAcknowledged(s.acknowledgement.value));
      var moved := s.reserved - covered - p.treasuryReserved;
      if p.currency != s.currency then Quarantined(CurrencyMismatched)
      else if IdRecorded(db.processed, s.messageId) then Ignored
      else if VersionRecorded(db.processed, s.programId, SnapshotKind, s.version) then
        if VersionRecordedWith(db.processed, s.programId, SnapshotKind, s.version, SnapshotFields(s)) then Ignored
        else Quarantined(VersionConflict)
      else if s.version < a.program.treasuryVersion then Ignored
      else if s.reserved < covered then Quarantined(SnapshotInconsistent)
      else if (if moved < 0 then -moved else moved) * 10_000 > basisPoints * p.creditLimit then Quarantined(ImplausibleDelta)
      else Applied
  }

  // ---------- What it writes ----------

  function CorrectionRow(s: Snapshot, component: Component, delta: int, sequence: int, now: Time): seq<LedgerRow> {
    if delta == 0 then [] else
      [LedgerRow(PendingEntry(delta, component, ReconciliationAdjustment, Some(s.messageId), "treasury",
                              if s.correlationId.Some? then s.correlationId.value else s.messageId), sequence, now)]
  }

  /** The ledger rows of an applied snapshot: one for TREASURY and one for LIMIT if they move, then a marker on crossing. */
  function CorrectionRows(a: Account, s: Snapshot, treasury: int, over: bool, now: Time): seq<LedgerRow> {
    var p := a.program.position;
    var t := CorrectionRow(s, Treasury, treasury, |a.ledger| + 1, now);
    var l := CorrectionRow(s, Limit, s.creditLimit - p.creditLimit, |a.ledger| + 1 + |t|, now);
    var correlationId := if t + l == [] then "system" else if s.correlationId.Some? then s.correlationId.value else s.messageId;
    t + l + MarkerRow(p.overLimitSince.Some?, over, correlationId, |a.ledger| + 1 + |t + l|, now)
  }

  /** The account after an applied snapshot, apart from its stream positions. */
  function Reconciled(a: Account, s: Snapshot, marker: Marker, now: Time): Account {
    var p := a.program.position;
    var treasury := s.reserved - Outstanding(a.reservations, WillBeAcknowledged(marker));
    var over := p.localReserved + treasury > s.creditLimit;
    var ledger := a.ledger + CorrectionRows(a, s, treasury - p.treasuryReserved, over, now);
    a.(ledger := ledger, reservations := AcknowledgedRows(marker, s.version, a.reservations, now),
       program := a.program.(
         treasuryVersion := s.version, treasuryEffectiveAt := Some(s.effectiveAt), positionChangedAt := now,
         appliedEffectiveAt := NewestApplied(a.program.appliedEffectiveAt, s.effectiveAt),
         position := p.(treasuryReserved := treasury, creditLimit := s.creditLimit, nextSequence := |ledger| + 1,
                        overLimitSince := if !over then None else if p.overLimitSince.Some? then p.overLimitSince else Some(now),
                        positionVerified := true)))
  }

  function RowsFrom(entries: seq<PendingEntry>, first: int, now: Time): seq<LedgerRow> {
    LedgerRows(Numbered(entries, first), now)
  }

  lemma RowsConcat(a: seq<PendingEntry>, b: seq<PendingEntry>, first: int, now: Time)
    ensures RowsFrom(a + b, first, now) == RowsFrom(a, first, now) + RowsFrom(b, first + |a|, now)
  {
  }

  function LastCorrelation(entries: seq<PendingEntry>): string {
    if entries == [] then "system" else entries[|entries| - 1].correlationId
  }

  lemma CorrectionIsRow(s: Snapshot, component: Component, delta: int, first: int, now: Time)
    ensures RowsFrom(CorrectionFor(s, component, delta), first, now) == CorrectionRow(s, component, delta, first, now)
  {
  }

  lemma CrossingIsRow(was: bool, over: bool, correlationId: string, first: int, now: Time)
    ensures RowsFrom(Crossing(was, over, correlationId), first, now) == MarkerRow(was, over, correlationId, first, now)
  {
  }

  lemma BatchIsRows(a: Account, s: Snapshot, d: SnapshotDeltas, over: bool, now: Time)
    requires d.local == 0 && d.limit == s.creditLimit - a.program.position.creditLimit
    ensures var entries, was := Corrections(s, d), a.program.position.overLimitSince.Some?;
      RowsFrom(entries + Crossing(was, over, LastCorrelation(entries)), |a.ledger| + 1, now)
        == CorrectionRows(a, s, d.treasury, over, now)
  {
    hide RowsFrom;
    var t, l, was := CorrectionFor(s, Treasury, d.treasury), CorrectionFor(s, Limit, d.limit), a.program.position.overLimitSince.Some?;
    var x, first := Crossing(was, over, LastCorrelation(t + l)), |a.ledger| + 1;
    assert Corrections(s, d) == t + l;
    RowsConcat(t + l, x, first, now);
    RowsConcat(t, l, first, now);
    CorrectionIsRow(s, Treasury, d.treasury, first, now);
    CorrectionIsRow(s, Limit, d.limit, first + |t|, now);
    CrossingIsRow(was, over, LastCorrelation(t + l), first + |t + l|, now);
  }

  lemma CorrectionsArePersisted(a: Account, s: Snapshot, treasury: int, now: Time)
    requires Gapless(a)
    requires var d := SnapshotDeltas(treasury - a.program.position.treasuryReserved, 0, s.creditLimit - a.program.position.creditLimit);
      Persist(a, Corrections(s, d), now, true).Success?
    ensures var p := a.program.position;
      var d := SnapshotDeltas(treasury - p.treasuryReserved, 0, s.creditLimit - p.creditLimit);
      var over := p.localReserved + treasury > s.creditLimit;
      var ledger := a.ledger + CorrectionRows(a, s, d.treasury, over, now);
      Persist(a, Corrections(s, d), now, true).value ==
        a.(ledger := ledger, program := a.program.(positionChangedAt := now, position := p.(
             treasuryReserved := treasury, creditLimit := s.creditLimit, nextSequence := |ledger| + 1,
             overLimitSince := if !over then None else if p.overLimitSince.Some? then p.overLimitSince else Some(now))))
  {
    hide Persist, Corrections, CorrectionRows, Delta, RowsFrom, Crossing;
    var p := a.program.position;
    var d := SnapshotDeltas(treasury - p.treasuryReserved, 0, s.creditLimit - p.creditLimit);
    var entries := Corrections(s, d);
    var over := p.localReserved + treasury > s.creditLimit;
    CorrectionsSum(s, d);
    PersistsRows(a, entries, now, true);
    assert Moved(p, entries) == p.(treasuryReserved := treasury, creditLimit := s.creditLimit);
    BatchIsRows(a, s, d, over, now);
    assert Batch(p, entries) == entries + Crossing(p.overLimitSince.Some?, over, LastCorrelation(entries));
    RowsLength(Batch(p, entries), |a.ledger| + 1, now);
  }

  lemma RowsLength(entries: seq<PendingEntry>, first: int, now: Time)
    ensures |RowsFrom(entries, first, now)| == |entries|
  {
  }

  lemma PersistsRows(a: Account, entries: seq<PendingEntry>, now: Time, reconciling: bool)
    requires Persist(a, entries, now, reconciling).Success?
    ensures var p := a.program.position;
      Persist(a, entries, now, reconciling).value ==
        a.(ledger := a.ledger + RowsFrom(Batch(p, entries), p.nextSequence, now),
           program := a.program.(positionChangedAt := now, position := Advance(p, entries, now).program))
  {
  }

  // ---------- The work and the step ----------

  /** The decision of the policy, on the rows' own columns. */
  lemma PolicyIs(a: Account, s: Snapshot, marker: Marker)
    requires AccountInv(a)
    ensures var p := a.program.position;
      var d := SnapshotPolicy(p, s.version, s.reserved, s.creditLimit, marker, a.reservations);
      var covered := Outstanding(a.reservations, WillBeAcknowledged(marker));
      && (d.Refuse? <==> s.reserved < covered)
      && (d.Apply? ==>
            !d.investigationRequired && d.deltas == SnapshotDeltas(s.reserved - covered - p.treasuryReserved, 0, s.creditLimit - p.creditLimit))
  {
    AccountIsGapless(a);
    MarkedSums(marker, s.version, a.reservations);
    if SnapshotPolicy(a.program.position, s.version, s.reserved, s.creditLimit, marker, a.reservations).Apply? { SnapshotMoves(a, s, marker); }
  }

  /** What the work comes to: one of the two reasons to decline, or the reconciled account. */
  lemma SnapshotWorkIs(a: Account, s: Snapshot, marker: Marker, at: Coordinates, now: Time, basisPoints: int)
    requires AccountInv(a) && Parsed(s)
    ensures var p, work := a.program.position, SnapshotWorkOf(a, s, marker, at, now, basisPoints);
      var covered := Outstanding(a.reservations, WillBeAcknowledged(marker));
      var moved := s.reserved - covered - p.treasuryReserved;
      if s.reserved < covered then work == Declines(SnapshotInconsistent)
      else if (if moved < 0 then -moved else moved) * 10_000 > basisPoints * p.creditLimit then work == Declines(ImplausibleDelta)
      else work.Accepts? && work.account == Reconciled(a, s, marker, now).(positions := Upsert(a.positions, at, now))
  {
    hide AccountInv, SnapshotPolicy, Persist, Corrections, Reconciled, SnapshotWritten;
    PolicyIs(a, s, marker);
    SnapshotKeepsBook(a, s, marker, at, now, basisPoints);
    if SnapshotWorkOf(a, s, marker, at, now, basisPoints).Accepts? { AcceptedIs(a, s, marker, at, now, basisPoints); }
  }

  lemma AcceptedIs(a: Account, s: Snapshot, marker: Marker, at: Coordinates, now: Time, basisPoints: int)
    requires AccountInv(a) && SnapshotWorkOf(a, s, marker, at, now, basisPoints).Accepts?
    ensures SnapshotWorkOf(a, s, marker, at, now, basisPoints).account
      == Reconciled(a, s, marker, now).(positions := Upsert(a.positions, at, now))
  {
    hide AccountInv, Persist, CorrectionRows, MarkIds, AcknowledgedIds, AcknowledgedRows, SnapshotPolicy, SnapshotWorkOf, Corrections, Outstanding;
    var p := a.program.position;
    var treasury := s.reserved - Outstanding(a.reservations, WillBeAcknowledged(marker));
    AccountIsGapless(a);
    PolicyIs(a, s, marker);
    AcceptedPersists(a, s, marker, at, now, basisPoints);
    CorrectionsArePersisted(a, s, treasury, now);
    WrittenMarks(marker, s.version, a.reservations, now);
  }

  lemma AccountIsGapless(a: Account)
    requires AccountInv(a)
    ensures Gapless(a) && AllSound(a.reservations) && DistinctInvoices(a.reservations) && !a.program.position.investigationRequired
  {
  }

  lemma AcceptedPersists(a: Account, s: Snapshot, marker: Marker, at: Coordinates, now: Time, basisPoints: int)
    requires SnapshotWorkOf(a, s, marker, at, now, basisPoints).Accepts?
    ensures var d := SnapshotPolicy(a.program.position, s.version, s.reserved, s.creditLimit, marker, a.reservations);
      && d.Apply? && Persist(a, Corrections(s, d.deltas), now, true).Success?
      && SnapshotWorkOf(a, s, marker, at, now, basisPoints).account == SnapshotWritten(
           Persist(a, Corrections(s, d.deltas), now, true).value, s,
           AcknowledgedIds(marker, s.version, a.reservations), d.investigationRequired, at, now)
  {
  }

  lemma ConcludesVerdict(db: Db, s: Snapshot, work: SnapshotWork)
    requires UniqueVersions(db.processed) && s.programId in db.accounts && !work.Breaks?
    ensures ConcludeSnapshot(db, s, db.accounts[s.programId].program.treasuryVersion, work) ==
      if IdRecorded(db.processed, s.messageId) then (db, Ignored)
      else if VersionRecorded(db.processed, s.programId, SnapshotKind, s.version) then
        (db, if VersionRecordedWith(db.processed, s.programId, SnapshotKind, s.version, SnapshotFields(s)) then Ignored
             else Quarantined(VersionConflict))
      else if s.version < db.accounts[s.programId].program.treasuryVersion then (db, Ignored)
      else if work.Declines? then (db, Quarantined(work.reason))
      else (Recorded(db, work.account, ProcessedRow(s.messageId, s.programId, SnapshotKind, s.version, SnapshotFields(s))), Applied)
  {
    hide IdRecorded, VersionRecorded, VersionRecordedWith;
    FindsId(db.processed, s.messageId);
    FindsVersion(db.processed, s.programId, SnapshotKind, s.version, SnapshotFields(s));
  }

  lemma SnapshotAppliedIn(db: Db, s: Snapshot, at: Coordinates, now: Time, basisPoints: int)
    requires Inv(db) && Parsed(s)
    ensures var (after, answer) := RunSnapshot(db, s, at, now, basisPoints);
      && answer == SnapshotVerdict(db, s, basisPoints)
      && if answer == Applied then
           after == Recorded(db, Reconciled(db.accounts[s.programId], s, s.acknowledgement.value, now)
                                   .(positions := Upsert(db.accounts[s.programId].positions, at, now)),
                             ProcessedRow(s.messageId, s.programId, SnapshotKind, s.version, SnapshotFields(s)))
         else after == db
  {
    if s.acknowledgement.Some? && s.programId in db.accounts {
      hide SnapshotWorkOf, Reconciled, ConcludeSnapshot, IdRecorded, VersionRecorded, VersionRecordedWith, AccountInv;
      var a := db.accounts[s.programId];
      var work := SnapshotWorkOf(a, s, s.acknowledgement.value, at, now, basisPoints);
      SnapshotWorkIs(a, s, s.acknowledgement.value, at, now, basisPoints);
      ConcludesVerdict(db, s, work);
      RunsTheWork(db, s, at, now, basisPoints, work);
    }
  }

  /**
   * In every run the apply of a parsed snapshot answers as the table says. Applied, it sets TREASURY to
   * what it states less the outstanding its marker acknowledges, the limit to what it states, and each
   * covered reservation to acknowledged; it writes one ledger row for each component that moves, its
   * version and times, and records itself. Any other answer changes nothing.
   */
  lemma {:induction false} SnapshotApplied(ops: seq<Op>, s: Snapshot, at: Coordinates, now: Time, basisPoints: int)
    requires AllWellFormed(ops) && Parsed(s)
    ensures var db := Run(EMPTY, ops);
      var (after, answer) := RunSnapshot(db, s, at, now, basisPoints);
      && answer == SnapshotVerdict(db, s, basisPoints)
      && if answer == Applied then
           && Stamped(db.accounts[s.programId].positions, at, now, Upsert(db.accounts[s.programId].positions, at, now))
           && after == Recorded(db, Reconciled(db.accounts[s.programId], s, s.acknowledgement.value, now)
                                      .(positions := Upsert(db.accounts[s.programId].positions, at, now)),
                                ProcessedRow(s.messageId, s.programId, SnapshotKind, s.version, SnapshotFields(s)))
         else after == db
  {
    hide Run, Inv, Reconciled;
    var db := Run(EMPTY, ops);
    EveryRunKeepsInv(ops);
    SnapshotAppliedIn(db, s, at, now, basisPoints);
    if RunSnapshot(db, s, at, now, basisPoints).1 == Applied {
      var work := AppliedShape(db, s, at, now, basisPoints);
      UpsertStampsStream(db.accounts[s.programId].positions, at, now);
    }
  }

  // ---------- Which reservations, and what total ----------

  /** After an applied snapshot a reservation is acknowledged exactly if it was, or the marker covers it. */
  lemma {:induction false} AcknowledgedIff(ops: seq<Op>, s: Snapshot, at: Coordinates, now: Time, basisPoints: int, k: nat)
    requires AllWellFormed(ops) && Parsed(s) && RunSnapshot(Run(EMPTY, ops), s, at, now, basisPoints).1 == Applied
    requires s.programId in Run(EMPTY, ops).accounts && k < |Run(EMPTY, ops).accounts[s.programId].reservations|
    ensures s.programId in RunSnapshot(Run(EMPTY, ops), s, at, now, basisPoints).0.accounts && s.acknowledgement.Some?
    ensures var r := Run(EMPTY, ops).accounts[s.programId].reservations[k];
      var rows := RunSnapshot(Run(EMPTY, ops), s, at, now, basisPoints).0.accounts[s.programId].reservations;
      && k < |rows|
      && (rows[k].acknowledged <==> (r.acknowledged ||
            match s.acknowledgement.value
            case Watermark(t) => r.confirmedAt <= t
            case Explicit(references) => r.treasuryReference.Some? && r.treasuryReference.value in references))
      && rows[k] == r.(acknowledged := rows[k].acknowledged, acknowledgedByVersion := rows[k].acknowledgedByVersion,
                       updatedAt := rows[k].updatedAt)
  {
    hide Run, Inv;
    var db := Run(EMPTY, ops);
    EveryRunKeepsInv(ops);
    SnapshotAppliedIn(db, s, at, now, basisPoints);
    var work := AppliedShape(db, s, at, now, basisPoints);
    SoundRow(db, s.programId, k);
    MarkIsCoverage(s.acknowledgement.value, s.version, db.accounts[s.programId].reservations[k]);
  }

  lemma SoundRow(db: Db, p: string, k: nat)
    requires Inv(db) && p in db.accounts && k < |db.accounts[p].reservations|
    ensures RowChecks(db.accounts[p].reservations[k])
  {
    assert AccountInv(db.accounts[p]) && Sound(db.accounts[p].reservations[k]);
  }

  lemma NoneLeft(rows: seq<ReservationRow>, marker: Marker)
    requires forall k :: 0 <= k < |rows| ==> rows[k].acknowledged || Covers(marker, rows[k])
    ensures Outstanding(rows, StaysUnacknowledged(marker)) == 0
  {
    if rows != [] { NoneLeft(rows[..|rows| - 1], marker); }
  }

  /** A watermark at or after every confirmation leaves the total at exactly what the snapshot states. */
  lemma {:induction false} FullWatermarkSetsTotal(ops: seq<Op>, s: Snapshot, at: Coordinates, now: Time, basisPoints: int)
    requires AllWellFormed(ops) && Parsed(s) && RunSnapshot(Run(EMPTY, ops), s, at, now, basisPoints).1 == Applied
    requires s.programId in Run(EMPTY, ops).accounts && s.acknowledgement.Some? && s.acknowledgement.value.Watermark?
    requires forall k :: 0 <= k < |Run(EMPTY, ops).accounts[s.programId].reservations| ==>
      Run(EMPTY, ops).accounts[s.programId].reservations[k].confirmedAt <= s.acknowledgement.value.ingestedThrough
    ensures s.programId in RunSnapshot(Run(EMPTY, ops), s, at, now, basisPoints).0.accounts
    ensures var q := RunSnapshot(Run(EMPTY, ops), s, at, now, basisPoints).0.accounts[s.programId].program.position;
      q.localReserved + q.treasuryReserved == s.reserved && q.creditLimit == s.creditLimit
  {
    hide Run, Inv;
    var db := Run(EMPTY, ops);
    var a, marker := db.accounts[s.programId], s.acknowledgement.value;
    EveryRunKeepsInv(ops);
    SnapshotAppliedIn(db, s, at, now, basisPoints);
    var work := AppliedShape(db, s, at, now, basisPoints);
    LocalIsCovered(db, s.programId, marker);
    NoneLeft(a.reservations, marker);
  }

  lemma LocalIsCovered(db: Db, p: string, marker: Marker)
    requires Inv(db) && p in db.accounts
    ensures var a := db.accounts[p];
      a.program.position.localReserved
        == Outstanding(a.reservations, WillBeAcknowledged(marker)) + Outstanding(a.reservations, StaysUnacknowledged(marker))
  {
    var a := db.accounts[p];
    assert AccountInv(a);
    CoveredSplits(a.reservations, marker);
  }

  lemma CoveredSplits(rows: seq<ReservationRow>, marker: Marker)
    ensures Outstanding(rows, Any)
      == Outstanding(rows, WillBeAcknowledged(marker)) + Outstanding(rows, StaysUnacknowledged(marker))
  {
    if rows != [] { CoveredSplits(rows[..|rows| - 1], marker); }
  }
}
