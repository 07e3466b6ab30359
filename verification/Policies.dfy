/** The pure decisions (src/capacity/domain/policies). */
module Policies {
  import opened Wrappers
  import opened Arithmetic
  import opened Domain

  datatype Refusal =
    | PositionUnverified | ProgramOverLimit | FxRateUnavailable | AmountRoundsToZero
    | InsufficientCapacity | DuplicateInvoice | IdempotencyConflict | IdempotencyExpired
    | RequestInFlight | InvalidAmount | CurrencyMismatch | ReservationTerminal
    | ReleaseExceedsReserved | NotFound

  // ---------- Reserve ----------

  datatype FxResolution = SameCurrency | Rate(scaledRate: ScaledRate) | Unavailable

  /** An accepted reservation: what it reserves and the rate it recorded, if any. */
  datatype ReserveDecision = ReserveDecision(reserved: int, fx: Option<int>)

  function DecideReservation(p: Position, invoiceAmount: int, fx: FxResolution): Result<ReserveDecision, Refusal> {
    if !p.positionVerified then Failure(PositionUnverified)
    else if IsOverLimit(p) then Failure(ProgramOverLimit)
    else if fx.Unavailable? then Failure(FxRateUnavailable)
    else
      var converted := if fx.SameCurrency? then Converted(invoiceAmount) else Convert(invoiceAmount, fx.scaledRate);
      if converted.RoundsToZero? then Failure(AmountRoundsToZero)
      else if converted.minor > Available(p) then Failure(InsufficientCapacity)
      else Success(ReserveDecision(converted.minor, if fx.SameCurrency? then None else Some(fx.scaledRate)))
  }

  // ---------- Release ----------

  datatype ReleaseDecision = ReleaseDecision(delta: int, outstandingInvoice: int, outstandingReserved: int, status: Status)

  function ReleasePolicy(release: int, currency: string, r: ReservationRow, scaledRate: int): Result<ReleaseDecision, Refusal> {
    if release <= 0 then Failure(InvalidAmount)
    else if currency != r.invoiceCurrency then Failure(CurrencyMismatch)
    else if Terminal(r.status) then Failure(ReservationTerminal)
    else if release > r.outstandingInvoice then Failure(ReleaseExceedsReserved)
    else if Convert(release, scaledRate).RoundsToZero? then Failure(AmountRoundsToZero)
    else
      var outstandingInvoice := r.outstandingInvoice - release;
      var remainder := Convert(outstandingInvoice, scaledRate);
      var remainderReserved := if remainder.Converted? then remainder.minor else 0;
      var delta := r.outstandingReserved - remainderReserved;
      if delta < 0 then Failure(ReleaseExceedsReserved)
      else if delta == 0 then Failure(AmountRoundsToZero)
      else if remainderReserved == 0 then Success(ReleaseDecision(delta, 0, 0, FullyReleased))
      else
        Success(ReleaseDecision(delta, outstandingInvoice, remainderReserved,
                                if outstandingInvoice == 0 then FullyReleased else PartiallyReleased))
  }

  // ---------- Cancel ----------

  datatype CancelDecision = CancelDecision(delta: int, cause: Cause, status: Status)

  function CancelPolicy(r: ReservationRow): Result<CancelDecision, Refusal> {
    if Terminal(r.status) then Failure(ReservationTerminal)
    else if r.status.PartiallyReleased? then Success(CancelDecision(r.outstandingReserved, WriteOff, WrittenOff))
    else Success(CancelDecision(r.outstandingReserved, Cancellation, Cancelled))
  }

  // ---------- The life of one reservation ----------

  /** scaleRate(row.fx_rate ?? '1.0') */
  function RateOf(r: ReservationRow): int {
    if r.fxRate.Some? then r.fxRate.value else RATE_SCALE
  }

  /** The table CHECKs on invoice_reservation. */
  predicate RowChecks(r: ReservationRow) {
    && r.invoiceAmount > 0 && r.reserved > 0
    && 0 <= r.outstandingInvoice <= r.invoiceAmount
    && 0 <= r.outstandingReserved <= r.reserved
    && ((r.invoiceCurrency == r.programCurrency) == r.fxRate.None?)
    && (r.fxRate.Some? ==> r.fxRate.value > 0)
    && (r.acknowledged == r.acknowledgedByVersion.Some?)
  }

  predicate RowFits(r: ReservationRow) {
    && FitsInt64(r.invoiceAmount) && FitsInt64(r.reserved)
    && FitsInt64(r.outstandingInvoice) && FitsInt64(r.outstandingReserved)
  }

  /**
   * A reservation in good order: within its CHECKs, holding exactly the converted outstanding
   * invoice until it is cancelled or written off, with something left while it is open and
   * nothing left once it is closed.
   */
  predicate Sound(r: ReservationRow) {
    && RowChecks(r) && RowFits(r) && r.origin.LocalOrigin?
    && (!(r.status.Cancelled? || r.status.WrittenOff?) ==> r.outstandingReserved == AtRate(r.outstandingInvoice, RateOf(r)))
    && (r.outstandingReserved > 0 <==> !Terminal(r.status))
  }

  function Released(r: ReservationRow, d: ReleaseDecision): ReservationRow {
    r.(outstandingInvoice := d.outstandingInvoice, outstandingReserved := d.outstandingReserved, status := d.status)
  }

  /** A release keeps the reservation sound and returns exactly what the reservation lost. */
  lemma ReleaseKeepsSound(r: ReservationRow, release: int, currency: string)
    requires Sound(r) && ReleasePolicy(release, currency, r, RateOf(r)).Success?
    ensures var d := ReleasePolicy(release, currency, r, RateOf(r)).value;
      && Sound(Released(r, d))
      && 1 <= d.delta <= r.outstandingReserved
      && Released(r, d).outstandingReserved == r.outstandingReserved - d.delta
  {
    AtRateShape(r.outstandingInvoice - release, release, RateOf(r));
  }

  /**
   * A release returns what it is worth converted alone, give or take one unit; and the refusal for a
   * negative difference is unreachable, because conversion is monotone.
   */
  lemma {:induction false} ReleaseReturnsItsWorth(r: ReservationRow, release: int, currency: string)
    requires Sound(r)
    ensures ReleasePolicy(release, currency, r, RateOf(r)).Success? ==>
      -1 <= ReleasePolicy(release, currency, r, RateOf(r)).value.delta - AtRate(release, RateOf(r)) <= 1
    ensures ReleasePolicy(release, currency, r, RateOf(r)) == Failure(ReleaseExceedsReserved) <==>
      release > 0 && currency == r.invoiceCurrency && !Terminal(r.status) && release > r.outstandingInvoice
  {
    if 0 < release <= r.outstandingInvoice {
      AtRateShape(r.outstandingInvoice - release, release, RateOf(r));
    }
  }

  /** No stranding: an open reservation is closed by releasing its whole outstanding invoice. */
  lemma FullReleaseCloses(r: ReservationRow)
    requires Sound(r) && !Terminal(r.status)
    ensures ReleasePolicy(r.outstandingInvoice, r.invoiceCurrency, r, RateOf(r))
      == Success(ReleaseDecision(r.outstandingReserved, 0, 0, FullyReleased))
  {
    AtRateShape(0, r.outstandingInvoice, RateOf(r));
  }

  /** The row after a run of release attempts, and how many of them were accepted. */
  function ReleaseAll(r: ReservationRow, amounts: seq<int>): (ReservationRow, nat) {
    if amounts == [] then (r, 0) else
      var (before, accepted) := ReleaseAll(r, amounts[..|amounts| - 1]);
      match ReleasePolicy(amounts[|amounts| - 1], r.invoiceCurrency, before, RateOf(before))
      case Success(d) => (Released(before, d), accepted + 1)
      case Failure(_) => (before, accepted)
  }

  /** Through any run of releases the row stays sound, and each acceptance costs it at least one unit. */
  lemma {:induction false} ReleasesAreBounded(r: ReservationRow, amounts: seq<int>)
    requires Sound(r)
    ensures var (after, accepted) := ReleaseAll(r, amounts);
      && Sound(after) && RateOf(after) == RateOf(r) && after.invoiceCurrency == r.invoiceCurrency
      && accepted <= r.outstandingReserved - after.outstandingReserved
      && accepted <= r.reserved
      && (!(after.status.Cancelled? || after.status.WrittenOff?) ==>
            after.outstandingReserved == AtRate(after.outstandingInvoice, RateOf(r)))
  {
    if amounts != [] {
      ReleasesAreBounded(r, amounts[..|amounts| - 1]);
      var before := ReleaseAll(r, amounts[..|amounts| - 1]).0;
      var amount := amounts[|amounts| - 1];
      if ReleasePolicy(amount, r.invoiceCurrency, before, RateOf(before)).Success? {
        ReleaseKeepsSound(before, amount, r.invoiceCurrency);
      }
    }
  }

  function CancelledRow(r: ReservationRow, d: CancelDecision): ReservationRow {
    r.(outstandingReserved := 0, status := d.status)
  }

  /** A cancellation returns everything still reserved and closes the reservation. */
  lemma CancelKeepsSound(r: ReservationRow)
    requires Sound(r)
    ensures CancelPolicy(r).Success? <==> r.outstandingReserved > 0
    ensures CancelPolicy(r).Success? ==>
      && CancelPolicy(r).value.delta == r.outstandingReserved
      && Sound(CancelledRow(r, CancelPolicy(r).value)) && Terminal(CancelPolicy(r).value.status)
      && (CancelPolicy(r).value.cause.WriteOff? <==> r.status.PartiallyReleased?)
  {
  }

  // ---------- Snapshot ----------

  datatype SnapshotDeltas = SnapshotDeltas(treasury: int, local: int, limit: int)

  datatype SnapshotDecision =
    | Apply(acknowledged: seq<string>, investigationRequired: bool, deltas: SnapshotDeltas)
    | Refuse

  predicate MarkerMatches(marker: Marker, r: ReservationRow) {
    match marker
    case Explicit(references) => r.treasuryReference.Some? && r.treasuryReference.value in references
    case Watermark(ingestedThrough) => r.confirmedAt <= ingestedThrough
  }

  /** The marker covers the row, and no snapshot at least as new has acknowledged it already. */
  predicate Acknowledges(marker: Marker, version: int, r: ReservationRow) {
    MarkerMatches(marker, r) && !(r.acknowledgedByVersion.Some? && r.acknowledgedByVersion.value >= version)
  }

  function MarkRow(marker: Marker, version: int, r: ReservationRow): ReservationRow {
    if Acknowledges(marker, version, r) then r.(acknowledged := true, acknowledgedByVersion := Some(version)) else r
  }

  function Mark(marker: Marker, version: int, rows: seq<ReservationRow>): seq<ReservationRow> {
    seq(|rows|, k requires 0 <= k < |rows| => MarkRow(marker, version, rows[k]))
  }

  function AcknowledgedIds(marker: Marker, version: int, rows: seq<ReservationRow>): seq<string> {
    if rows == [] then [] else
      AcknowledgedIds(marker, version, rows[..|rows| - 1])
      + if Acknowledges(marker, version, rows[|rows| - 1]) then [rows[|rows| - 1].invoiceId] else []
  }

  /** The decision with the acknowledged sum taken over a given set of rows. */
  function DecideOver(p: Position, reserved: int, creditLimit: int, acknowledged: seq<string>, rows: seq<ReservationRow>): SnapshotDecision {
    var targetTreasury := reserved - Outstanding(rows, AcknowledgedLocal);
    var targetLocal := Outstanding(rows, LocallyOriginated);
    if targetTreasury < 0 then Refuse
    else
      Apply(acknowledged, targetLocal != p.localReserved,
            SnapshotDeltas(targetTreasury - p.treasuryReserved, targetLocal - p.localReserved, creditLimit - p.creditLimit))
  }

  /** The marker first, then the sums over the marked rows. */
  function SnapshotPolicy(p: Position, version: int, reserved: int, creditLimit: int, marker: Marker, rows: seq<ReservationRow>): SnapshotDecision {
    DecideOver(p, reserved, creditLimit, AcknowledgedIds(marker, version, rows), Mark(marker, version, rows))
  }

  /** The marker over the reservations: the marked rows, and the ids of those it acknowledged. */
  method ApplyMarker(version: int, marker: Marker, rows: seq<ReservationRow>)
    returns (acknowledged: seq<string>, marked: seq<ReservationRow>)
    ensures acknowledged == AcknowledgedIds(marker, version, rows)
    ensures marked == Mark(marker, version, rows)
  {
    acknowledged, marked := [], [];
    for i := 0 to |rows|
      invariant acknowledged == AcknowledgedIds(marker, version, rows[..i])
      invariant marked == Mark(marker, version, rows[..i])
    {
      var row := rows[i];
      assert rows[..i + 1][..i] == rows[..i];
      if MarkerMatches(marker, row) && !(row.acknowledgedByVersion.Some? && row.acknowledgedByVersion.value >= version) {
        acknowledged := acknowledged + [row.invoiceId];
        marked := marked + [row.(acknowledged := true, acknowledgedByVersion := Some(version))];
      } else {
        marked := marked + [row];
      }
    }
    assert rows[..|rows|] == rows;
  }

  /** The two running sums over the marked rows. */
  method SumMarked(marked: seq<ReservationRow>) returns (ackedLocal: int, localTotal: int)
    ensures ackedLocal == Outstanding(marked, AcknowledgedLocal)
    ensures localTotal == Outstanding(marked, LocallyOriginated)
  {
    ackedLocal, localTotal := 0, 0;
    for i := 0 to |marked|
      invariant ackedLocal == Outstanding(marked[..i], AcknowledgedLocal)
      invariant localTotal == Outstanding(marked[..i], LocallyOriginated)
    {
      assert marked[..i + 1][..i] == marked[..i];
      if marked[i].origin.LocalOrigin? {
        localTotal := localTotal + marked[i].outstandingReserved;
        if marked[i].acknowledged {
          ackedLocal := ackedLocal + marked[i].outstandingReserved;
        }
      }
    }
    assert marked[..|marked|] == marked;
  }

  method ApplySnapshotPolicy(p: Position, version: int, reserved: int, creditLimit: int, marker: Marker, rows: seq<ReservationRow>)
    returns (d: SnapshotDecision)
    ensures d == SnapshotPolicy(p, version, reserved, creditLimit, marker, rows)
  {
    var acknowledged, marked := ApplyMarker(version, marker, rows);
    var ackedLocal, localTotal := SumMarked(marked);
    var targetTreasury := reserved - ackedLocal;
    if targetTreasury < 0 {
      return Refuse;
    }
    d := Apply(acknowledged, localTotal != p.localReserved,
               SnapshotDeltas(targetTreasury - p.treasuryReserved, localTotal - p.localReserved, creditLimit - p.creditLimit));
  }

  /** The position an accepted snapshot leaves behind. */
  function Corrected(p: Position, d: SnapshotDeltas): Position {
    p.(treasuryReserved := p.treasuryReserved + d.treasury,
       localReserved := p.localReserved + d.local,
       creditLimit := p.creditLimit + d.limit)
  }

  lemma LocalSplits(rows: seq<ReservationRow>)
    ensures Outstanding(rows, LocallyOriginated)
      == Outstanding(rows, AcknowledgedLocal) + Outstanding(rows, UnacknowledgedLocal)
  {
  }

  /**
   * The additive rule, from any position whatever: the total reserved becomes what the snapshot
   * states plus the outstanding of the local reservations it has not acknowledged.
   */
  lemma AdditiveRule(p: Position, version: int, reserved: int, creditLimit: int, marker: Marker, rows: seq<ReservationRow>)
    requires SnapshotPolicy(p, version, reserved, creditLimit, marker, rows).Apply?
    ensures var q := Corrected(p, SnapshotPolicy(p, version, reserved, creditLimit, marker, rows).deltas);
      && TotalReserved(q) == reserved + Outstanding(Mark(marker, version, rows), UnacknowledgedLocal)
      && q.treasuryReserved >= 0 && q.creditLimit == creditLimit
      && q.localReserved == Outstanding(rows, LocallyOriginated)
  {
    LocalSplits(Mark(marker, version, rows));
    OutstandingSame(rows, Mark(marker, version, rows), LocallyOriginated, LocallyOriginated);
  }

  /** The outstanding of the local rows that a marker acknowledges for the first time. */
  function Flipping(marker: Marker, version: int, rows: seq<ReservationRow>): int {
    if rows == [] then 0 else
      var last := rows[|rows| - 1];
      Flipping(marker, version, rows[..|rows| - 1])
      + if UnacknowledgedLocal(last) && Acknowledges(marker, version, last) then last.outstandingReserved else 0
  }

  lemma MarkAddsFlipping(marker: Marker, version: int, rows: seq<ReservationRow>)
    ensures Outstanding(Mark(marker, version, rows), AcknowledgedLocal)
      == Outstanding(rows, AcknowledgedLocal) + Flipping(marker, version, rows)
  {
    if rows != [] {
      var n := |rows| - 1;
      MarkAddsFlipping(marker, version, rows[..n]);
      assert Mark(marker, version, rows)[..n] == Mark(marker, version, rows[..n]);
    }
  }

  /** Taking the sums before the marker would differ by exactly the outstanding that flips. */
  lemma MarkerBeforeSums(p: Position, version: int, reserved: int, creditLimit: int, marker: Marker, rows: seq<ReservationRow>)
    requires SnapshotPolicy(p, version, reserved, creditLimit, marker, rows).Apply?
    requires forall k :: 0 <= k < |rows| ==> rows[k].outstandingReserved >= 0
    ensures var sumsFirst := DecideOver(p, reserved, creditLimit, AcknowledgedIds(marker, version, rows), rows);
      && sumsFirst.Apply?
      && sumsFirst.deltas.treasury
         == SnapshotPolicy(p, version, reserved, creditLimit, marker, rows).deltas.treasury + Flipping(marker, version, rows)
      && sumsFirst.deltas.local == SnapshotPolicy(p, version, reserved, creditLimit, marker, rows).deltas.local
  {
    MarkAddsFlipping(marker, version, rows);
    FlippingNonNegative(marker, version, rows);
    OutstandingSame(rows, Mark(marker, version, rows), LocallyOriginated, LocallyOriginated);
  }

  lemma FlippingNonNegative(marker: Marker, version: int, rows: seq<ReservationRow>)
    requires forall k :: 0 <= k < |rows| ==> rows[k].outstandingReserved >= 0
    ensures Flipping(marker, version, rows) >= 0
  {
  }

  lemma NothingToAcknowledge(marker: Marker, version: int, rows: seq<ReservationRow>)
    requires forall k :: 0 <= k < |rows| ==> !Acknowledges(marker, version, rows[k])
    ensures AcknowledgedIds(marker, version, rows) == [] && Mark(marker, version, rows) == rows
  {
  }

  /** Running the policy again on its own result acknowledges nothing and moves nothing. */
  lemma SnapshotIdempotent(p: Position, version: int, reserved: int, creditLimit: int, marker: Marker, rows: seq<ReservationRow>)
    requires SnapshotPolicy(p, version, reserved, creditLimit, marker, rows).Apply?
    ensures SnapshotPolicy(Corrected(p, SnapshotPolicy(p, version, reserved, creditLimit, marker, rows).deltas),
                           version, reserved, creditLimit, marker, Mark(marker, version, rows))
      == Apply([], false, SnapshotDeltas(0, 0, 0))
  {
    NothingToAcknowledge(marker, version, Mark(marker, version, rows));
  }

  /** exceedsMagnitudeGuard, with the configured ratio already in basis points. */
  predicate ExceedsMagnitudeGuard(deltaTreasury: int, creditLimit: int, basisPoints: int) {
    Abs(deltaTreasury) * 10_000 > basisPoints * creditLimit
  }
}
