/** Positions, ledger entries, reservations and messages (src/capacity/domain, src/shared/treasury). */
module Domain {
  import opened Wrappers

  type Time = int

  const INT64_MAX: int := 0x7fff_ffff_ffff_ffff

  /** The range of a BIGINT column. */
  predicate FitsInt64(n: int) {
    -INT64_MAX - 1 <= n <= INT64_MAX
  }

  datatype Component = Local | Treasury | Limit

  datatype Cause =
    | Reservation | Release | Cancellation | WriteOff
    | TreasuryEvent | LimitChange | ReconciliationAdjustment
    | OverLimitOnset | OverLimitCleared

  datatype PendingEntry = PendingEntry(
    delta: int, component: Component, cause: Cause, origin: Option<string>, actor: string, correlationId: string)

  datatype SequencedEntry = SequencedEntry(entry: PendingEntry, sequence: int)

  datatype Position = Position(
    currency: string, creditLimit: int, localReserved: int, treasuryReserved: int,
    nextSequence: int, overLimitSince: Option<Time>, investigationRequired: bool, positionVerified: bool)

  function TotalReserved(p: Position): int {
    p.localReserved + p.treasuryReserved
  }

  function Available(p: Position): int {
    p.creditLimit - TotalReserved(p)
  }

  predicate IsOverLimit(p: Position) {
    TotalReserved(p) > p.creditLimit
  }

  datatype Status = Active | PartiallyReleased | FullyReleased | Cancelled | WrittenOff

  predicate Terminal(s: Status) {
    s.FullyReleased? || s.Cancelled? || s.WrittenOff?
  }

  datatype Origin = LocalOrigin | TreasuryOrigin

  /** A row of invoice_reservation; `fxRate` is NUMERIC(20,10) as a count of 10^-10 units. */
  datatype ReservationRow = ReservationRow(
    invoiceId: string, invoiceAmount: int, invoiceCurrency: string, programCurrency: string,
    reserved: int, outstandingInvoice: int, outstandingReserved: int, fxRate: Option<int>,
    status: Status, origin: Origin, acknowledged: bool, acknowledgedByVersion: Option<int>,
    treasuryReference: Option<string>, confirmedAt: Time, updatedAt: Time)

  /** An acknowledgement marker: exactly one of the two payloads is present. */
  datatype Marker = Explicit(references: seq<string>) | Watermark(ingestedThrough: Time)

  datatype EventType = LimitChanged | ReservationBooked | ReservationReleased

  datatype CapacityEvent = CapacityEvent(
    messageId: string, programId: string, version: int, effectiveAt: Time, correlationId: Option<string>,
    eventType: EventType, amount: int, currency: string, reference: Option<string>)

  datatype Snapshot = Snapshot(
    messageId: string, programId: string, version: int, effectiveAt: Time, correlationId: Option<string>,
    currency: string, creditLimit: int, reserved: int, acknowledgement: Option<Marker>)

  /** Amounts in the range the snapshot parser accepts. */
  predicate Parsed(s: Snapshot) {
    0 <= s.creditLimit <= INT64_MAX && 0 <= s.reserved <= INT64_MAX && 0 <= s.version <= INT64_MAX
  }

  // ---------- Sums over entries and reservations ----------

  /** What the entries add to one component. */
  function Delta(entries: seq<PendingEntry>, c: Component): int {
    if entries == [] then 0 else
      var last := entries[|entries| - 1];
      Delta(entries[..|entries| - 1], c) + if last.component == c then last.delta else 0
  }

  /** What the LOCAL entries naming one invoice add up to. */
  function NamedDelta(entries: seq<PendingEntry>, invoiceId: string): int {
    if entries == [] then 0 else
      var last := entries[|entries| - 1];
      NamedDelta(entries[..|entries| - 1], invoiceId)
      + if last.component == Local && last.origin == Some(invoiceId) then last.delta else 0
  }

  lemma DeltaConcat(a: seq<PendingEntry>, b: seq<PendingEntry>, c: Component)
    ensures Delta(a + b, c) == Delta(a, c) + Delta(b, c)
  {
    if b == [] {
      assert a + b == a;
    } else {
      DeltaConcat(a, b[..|b| - 1], c);
      assert (a + b)[..|a + b| - 1] == a + b[..|b| - 1];
    }
  }

  lemma NamedDeltaConcat(a: seq<PendingEntry>, b: seq<PendingEntry>, invoiceId: string)
    ensures NamedDelta(a + b, invoiceId) == NamedDelta(a, invoiceId) + NamedDelta(b, invoiceId)
  {
    if b == [] {
      assert a + b == a;
    } else {
      NamedDeltaConcat(a, b[..|b| - 1], invoiceId);
      assert (a + b)[..|a + b| - 1] == a + b[..|b| - 1];
    }
  }

  predicate Any(r: ReservationRow) { true }

  predicate LocallyOriginated(r: ReservationRow) { r.origin.LocalOrigin? }

  predicate AcknowledgedLocal(r: ReservationRow) { r.origin.LocalOrigin? && r.acknowledged }

  predicate UnacknowledgedLocal(r: ReservationRow) { r.origin.LocalOrigin? && !r.acknowledged }

  /** SUM(outstanding_reserved_minor) over the rows satisfying a condition. */
  function Outstanding(rows: seq<ReservationRow>, where: ReservationRow -> bool): int {
    if rows == [] then 0 else
      var last := rows[|rows| - 1];
      Outstanding(rows[..|rows| - 1], where) + if where(last) then last.outstandingReserved else 0
  }

  lemma OutstandingUpdate(rows: seq<ReservationRow>, i: nat, r: ReservationRow, where: ReservationRow -> bool)
    requires i < |rows|
    ensures Outstanding(rows[i := r], where) == Outstanding(rows, where)
      - (if where(rows[i]) then rows[i].outstandingReserved else 0)
      + (if where(r) then r.outstandingReserved else 0)
  {
    var n := |rows| - 1;
    if i < n {
      OutstandingUpdate(rows[..n], i, r, where);
      assert rows[i := r][..n] == rows[..n][i := r];
    } else {
      assert rows[i := r][..n] == rows[..n];
    }
  }

  lemma OutstandingAppend(rows: seq<ReservationRow>, r: ReservationRow, where: ReservationRow -> bool)
    ensures Outstanding(rows + [r], where)
      == Outstanding(rows, where) + if where(r) then r.outstandingReserved else 0
  {
  }

  lemma OutstandingBounds(rows: seq<ReservationRow>, i: nat, where: ReservationRow -> bool)
    requires forall k :: 0 <= k < |rows| ==> rows[k].outstandingReserved >= 0
    ensures Outstanding(rows, where) >= 0
    ensures i < |rows| && where(rows[i]) ==> rows[i].outstandingReserved <= Outstanding(rows, where)
  {
  }

  /** Rows equal in the summed column and in the condition have equal sums. */
  lemma OutstandingSame(a: seq<ReservationRow>, b: seq<ReservationRow>, p: ReservationRow -> bool, q: ReservationRow -> bool)
    requires |a| == |b|
    requires forall k :: 0 <= k < |a| ==>
      (if p(a[k]) then a[k].outstandingReserved else 0) == (if q(b[k]) then b[k].outstandingReserved else 0)
    ensures Outstanding(a, p) == Outstanding(b, q)
  {
  }

  // ---------- advancePosition (src/capacity/domain/position.ts) ----------

  datatype AdvanceResult = AdvanceResult(program: Position, entries: seq<SequencedEntry>)

  function MarkerEntry(cause: Cause, correlationId: string): PendingEntry {
    PendingEntry(0, Limit, cause, None, "system", correlationId)
  }

  predicate IsMarker(e: PendingEntry) {
    e.cause.OverLimitOnset? || e.cause.OverLimitCleared?
  }

  /** The marker entry due when the total crosses the limit, if it does. */
  function Crossing(was: bool, now: bool, correlationId: string): seq<PendingEntry> {
    if !was && now then [MarkerEntry(OverLimitOnset, correlationId)]
    else if was && !now then [MarkerEntry(OverLimitCleared, correlationId)]
    else []
  }

  function Numbered(entries: seq<PendingEntry>, first: int): seq<SequencedEntry> {
    seq(|entries|, k requires 0 <= k < |entries| => SequencedEntry(entries[k], first + k))
  }

  /** The position after the sums, before the over-limit mark is brought up to date. */
  function Moved(p: Position, entries: seq<PendingEntry>): Position {
    p.(localReserved := p.localReserved + Delta(entries, Local),
       treasuryReserved := p.treasuryReserved + Delta(entries, Treasury),
       creditLimit := p.creditLimit + Delta(entries, Limit))
  }

  /** The entries a batch appends: its own, then a marker if the total crosses the limit. */
  function Batch(p: Position, entries: seq<PendingEntry>): seq<PendingEntry> {
    entries + Crossing(p.overLimitSince.Some?, IsOverLimit(Moved(p, entries)),
                       if entries == [] then "system" else entries[|entries| - 1].correlationId)
  }

  /** The effect of a batch of entries, in closed form: sums, consecutive numbers, a marker on crossing. */
  function Advance(p: Position, entries: seq<PendingEntry>, now: Time): AdvanceResult {
    var moved := Moved(p, entries);
    AdvanceResult(
      moved.(
        nextSequence := p.nextSequence + |Batch(p, entries)|,
        overLimitSince := if !IsOverLimit(moved) then None else if p.overLimitSince.Some? then p.overLimitSince else Some(now)),
      Numbered(Batch(p, entries), p.nextSequence))
  }

  /** The loop over pending entries, then the over-limit mark. */
  method AdvancePosition(program: Position, entries: seq<PendingEntry>, now: Time) returns (r: AdvanceResult)
    ensures r == Advance(program, entries, now)
  {
    var localReserved, treasuryReserved := program.localReserved, program.treasuryReserved;
    var creditLimit, nextSequence := program.creditLimit, program.nextSequence;
    var sequenced: seq<SequencedEntry> := [];
    for i := 0 to |entries|
      invariant localReserved == program.localReserved + Delta(entries[..i], Local)
      invariant treasuryReserved == program.treasuryReserved + Delta(entries[..i], Treasury)
      invariant creditLimit == program.creditLimit + Delta(entries[..i], Limit)
      invariant nextSequence == program.nextSequence + i
      invariant sequenced == Numbered(entries[..i], program.nextSequence)
    {
      var pending := entries[i];
      assert entries[..i + 1][..i] == entries[..i];
      match pending.component {
        case Local => localReserved := localReserved + pending.delta;
        case Treasury => treasuryReserved := treasuryReserved + pending.delta;
        case Limit => creditLimit := creditLimit + pending.delta;
      }
      sequenced := sequenced + [SequencedEntry(pending, nextSequence)];
      nextSequence := nextSequence + 1;
    }
    assert entries[..|entries|] == entries;
    var wasOverLimit := program.overLimitSince.Some?;
    var nowOverLimit := localReserved + treasuryReserved > creditLimit;
    var correlationId := if |entries| > 0 then entries[|entries| - 1].correlationId else "system";
    var overLimitSince := program.overLimitSince;
    if !wasOverLimit && nowOverLimit {
      sequenced := sequenced + [SequencedEntry(MarkerEntry(OverLimitOnset, correlationId), nextSequence)];
      nextSequence := nextSequence + 1;
      overLimitSince := Some(now);
    } else if wasOverLimit && !nowOverLimit {
      sequenced := sequenced + [SequencedEntry(MarkerEntry(OverLimitCleared, correlationId), nextSequence)];
      nextSequence := nextSequence + 1;
      overLimitSince := None;
    }
    r := AdvanceResult(
      program.(creditLimit := creditLimit, localReserved := localReserved, treasuryReserved := treasuryReserved,
               nextSequence := nextSequence, overLimitSince := overLimitSince),
      sequenced);
    assert r.entries == Advance(program, entries, now).entries;
  }
}
