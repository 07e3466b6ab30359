/** What every committed program satisfies, and that requests, events and snapshots keep it. */
module Book {
  import opened Wrappers
  import opened Arithmetic
  import opened Domain
  import opened Policies
  import opened Tables
  import opened Ledger

  /** The outstanding reserved amount of one invoice, zero when it has no row. */
  function OutstandingOf(rows: seq<ReservationRow>, invoiceId: string): int {
    var i := Locate(rows, invoiceId);
    if i < |rows| then rows[i].outstandingReserved else 0
  }

  predicate AllSound(rows: seq<ReservationRow>) {
    forall k :: 0 <= k < |rows| ==> Sound(rows[k])
  }

  predicate DistinctInvoices(rows: seq<ReservationRow>) {
    forall i, j :: 0 <= i < j < |rows| ==> rows[i].invoiceId != rows[j].invoiceId
  }

  /** For every invoice, the LOCAL entries naming it add up to what it still reserves. */
  ghost predicate InvoicesReplay(a: Account) {
    forall i :: NamedDelta(Entries(a.ledger), i) == OutstandingOf(a.reservations, i)
  }

  /** The reservations agree with the ledger and with the cached LOCAL component. */
  ghost predicate BookInv(a: Account) {
    && AllSound(a.reservations)
    && DistinctInvoices(a.reservations)
    && a.program.position.localReserved == Outstanding(a.reservations, Any)
    && InvoicesReplay(a)
    && !a.program.position.investigationRequired
  }

  ghost predicate AccountInv(a: Account) {
    LedgerInv(a) && BookInv(a)
  }

  // ---------- Sums that coincide ----------

  /** Closed reservations hold nothing, and every reservation is local, so all these sums are LOCAL. */
  lemma LocalIsEverySum(a: Account)
    requires AccountInv(a)
    ensures a.program.position.localReserved == Outstanding(a.reservations, LocallyOriginated)
    ensures a.program.position.localReserved == Outstanding(a.reservations, OpenLocal)
    ensures !Drifted(a)
  {
    OutstandingSame(a.reservations, a.reservations, Any, LocallyOriginated);
    OutstandingSame(a.reservations, a.reservations, Any, OpenLocal);
  }

  lemma OneEntry(e: PendingEntry)
    ensures forall c :: Delta([e], c) == if e.component == c then e.delta else 0
    ensures forall i :: NamedDelta([e], i) == if e.component == Local && e.origin == Some(i) then e.delta else 0
  {
  }

  // ---------- Requests ----------

  lemma LocateIs(rows: seq<ReservationRow>, invoiceId: string, i: nat)
    requires i <= |rows| && (i < |rows| ==> rows[i].invoiceId == invoiceId)
    requires forall k :: 0 <= k < i ==> rows[k].invoiceId != invoiceId
    ensures Locate(rows, invoiceId) == i
  {
  }

  lemma UpdateOutstandingOf(rows: seq<ReservationRow>, i: nat, r: ReservationRow, invoiceId: string)
    requires i < |rows| && DistinctInvoices(rows) && r.invoiceId == rows[i].invoiceId
    ensures OutstandingOf(rows[i := r], invoiceId) == OutstandingOf(rows, invoiceId)
      + if r.invoiceId == invoiceId then r.outstandingReserved - rows[i].outstandingReserved else 0
  {
    var j := Locate(rows, invoiceId);
    LocateIs(rows[i := r], invoiceId, j);
    if r.invoiceId == invoiceId { LocateIs(rows, invoiceId, i); }
  }

  /** Settling one reservation for exactly what the LOCAL entry takes away keeps the book. */
  lemma SettleKeepsBook(a: Account, i: nat, row: ReservationRow, entry: PendingEntry, now: Time)
    requires AccountInv(a) && i < |a.reservations| && Sound(row)
    requires row.invoiceId == a.reservations[i].invoiceId
    requires entry.component == Local && entry.origin == Some(row.invoiceId) && !IsMarker(entry)
    requires entry.delta == row.outstandingReserved - a.reservations[i].outstandingReserved
    requires Settle(a, i, row, entry, now).Done?
    ensures AccountInv(Settle(a, i, row, entry, now).account)
  {
    var b := Persist(a, [entry], now, false).value;
    var c := Settle(a, i, row, entry, now).account;
    PersistKeepsLedger(a, [entry], now, false);
    OneEntry(entry);
    OutstandingUpdate(a.reservations, i, row, Any);
    forall inv ensures NamedDelta(Entries(c.ledger), inv) == OutstandingOf(c.reservations, inv) {
      assert NamedDelta(Entries(b.ledger), inv) == NamedDelta(Entries(a.ledger), inv) + NamedDelta([entry], inv);
      assert NamedDelta(Entries(a.ledger), inv) == OutstandingOf(a.reservations, inv);
      UpdateOutstandingOf(a.reservations, i, row, inv);
    }
  }

  /** Settling a sound row for less never breaks a constraint. */
  lemma SettleSucceeds(a: Account, i: nat, row: ReservationRow, entry: PendingEntry, now: Time)
    requires AccountInv(a) && i < |a.reservations| && Sound(row)
    requires entry.component == Local && entry.delta == row.outstandingReserved - a.reservations[i].outstandingReserved
    requires row.outstandingReserved <= a.reservations[i].outstandingReserved
    ensures Settle(a, i, row, entry, now).Done?
    ensures var q := Settle(a, i, row, entry, now).account.program.position;
      TotalReserved(q) <= TotalReserved(a.program.position) && q.creditLimit == a.program.position.creditLimit
  {
    OneEntry(entry);
    OutstandingBounds(a.reservations, i, Any);
    PersistAccepts(a, [entry], now, false);
  }

  /** Work that keeps the book without raising the total or moving the limit. */
  ghost predicate Settled(a: Account, w: Work) {
    && !w.Fails?
    && (w.Done? ==>
          && AccountInv(w.account)
          && TotalReserved(w.account.program.position) <= TotalReserved(a.program.position)
          && w.account.program.position.creditLimit == a.program.position.creditLimit)
  }

  lemma SettlingIsSettled(a: Account, i: nat, row: ReservationRow, entry: PendingEntry, now: Time)
    requires AccountInv(a) && i < |a.reservations| && Sound(row) && row.invoiceId == a.reservations[i].invoiceId
    requires entry.component == Local && entry.origin == Some(row.invoiceId) && !IsMarker(entry)
    requires entry.delta == row.outstandingReserved - a.reservations[i].outstandingReserved <= 0
    ensures Settled(a, Settle(a, i, row, entry, now))
  {
    SettleSucceeds(a, i, row, entry, now);
    SettleKeepsBook(a, i, row, entry, now);
  }

  lemma ReleaseShape(a: Account, c: Command, amount: int, currency: string, now: Time) returns (i: nat, d: ReleaseDecision)
    requires !ReleaseWork(a, c, amount, currency, now).Refuses?
    ensures i == Locate(a.reservations, c.invoiceId) < |a.reservations|
    ensures ReleasePolicy(amount, currency, a.reservations[i], RateOf(a.reservations[i])) == Success(d)
    ensures ReleaseWork(a, c, amount, currency, now)
      == Settle(a, i, Released(a.reservations[i], d).(updatedAt := now), LocalEntry(c, -d.delta, Release), now)
  {
    i := Locate(a.reservations, c.invoiceId);
    d := ReleasePolicy(amount, currency, a.reservations[i], RateOf(a.reservations[i])).value;
  }

  lemma CancelShape(a: Account, c: Command, now: Time) returns (i: nat, d: CancelDecision)
    requires !CancelWork(a, c, now).Refuses?
    ensures i == Locate(a.reservations, c.invoiceId) < |a.reservations| && CancelPolicy(a.reservations[i]) == Success(d)
    ensures CancelWork(a, c, now)
      == Settle(a, i, CancelledRow(a.reservations[i], d).(updatedAt := now), LocalEntry(c, -d.delta, d.cause), now)
  {
    i := Locate(a.reservations, c.invoiceId);
    d := CancelPolicy(a.reservations[i]).value;
  }

  lemma ReleaseKeepsBook(a: Account, c: Command, amount: int, currency: string, now: Time)
    requires AccountInv(a)
    ensures Settled(a, ReleaseWork(a, c, amount, currency, now))
  {
    if !ReleaseWork(a, c, amount, currency, now).Refuses? {
      var i, d := ReleaseShape(a, c, amount, currency, now);
      var r := a.reservations[i];
      ReleaseKeepsSound(r, amount, currency);
      SettlingIsSettled(a, i, Released(r, d).(updatedAt := now), LocalEntry(c, -d.delta, Release), now);
    }
  }

  lemma CancelKeepsBook(a: Account, c: Command, now: Time)
    requires AccountInv(a)
    ensures Settled(a, CancelWork(a, c, now))
  {
    if !CancelWork(a, c, now).Refuses? {
      var i, d := CancelShape(a, c, now);
      var r := a.reservations[i];
      CancelKeepsSound(r);
      SettlingIsSettled(a, i, CancelledRow(r, d).(updatedAt := now), LocalEntry(c, -d.delta, d.cause), now);
    }
  }

  /** An accepted reservation fits the limit, so nothing it writes is out of range or refused by a CHECK. */
  lemma AcceptedReservationIsSound(a: Account, c: Command, amount: int, currency: string, rate: Option<ScaledRate>, now: Time)
    requires AccountInv(a) && 0 < amount <= INT64_MAX
    requires DecideReservation(a.program.position, amount, Resolve(currency, a.program.position.currency, rate)).Success?
    ensures var p := a.program.position;
      var d := DecideReservation(p, amount, Resolve(currency, p.currency, rate)).value;
      && 0 < d.reserved <= Available(p) <= INT64_MAX
      && Sound(NewReservation(c, amount, currency, p.currency, d, now))
  {
  }

  lemma ReserveSucceeds(a: Account, c: Command, amount: int, currency: string, rate: Option<ScaledRate>, now: Time)
    requires AccountInv(a) && 0 < amount <= INT64_MAX
    ensures !ReserveWork(a, c, amount, currency, rate, now).Fails?
    ensures ReserveWork(a, c, amount, currency, rate, now).Done? ==>
      var b := ReserveWork(a, c, amount, currency, rate, now).account;
      !IsOverLimit(a.program.position) && !IsOverLimit(b.program.position)
  {
    var p := a.program.position;
    var decision := DecideReservation(p, amount, Resolve(currency, p.currency, rate));
    if Locate(a.reservations, c.invoiceId) == |a.reservations| && decision.Success? {
      AcceptedReservationIsSound(a, c, amount, currency, rate, now);
      var row := NewReservation(c, amount, currency, p.currency, decision.value, now);
      var entry := LocalEntry(c, decision.value.reserved, Reservation);
      OneEntry(entry);
      PersistAccepts(a.(reservations := a.reservations + [row]), [entry], now, false);
    }
  }

  lemma LocateAppend(rows: seq<ReservationRow>, r: ReservationRow, invoiceId: string)
    requires Locate(rows, r.invoiceId) == |rows|
    ensures OutstandingOf(rows + [r], invoiceId)
      == OutstandingOf(rows, invoiceId) + if r.invoiceId == invoiceId then r.outstandingReserved else 0
  {
    var i := Locate(rows, invoiceId);
    if i < |rows| || r.invoiceId == invoiceId {
      LocateIs(rows + [r], invoiceId, i);
    } else {
      LocateIs(rows + [r], invoiceId, |rows| + 1);
    }
  }

  lemma AppendKeepsReplay(a: Account, b: Account, row: ReservationRow, entry: PendingEntry)
    requires InvoicesReplay(a) && Locate(a.reservations, row.invoiceId) == |a.reservations|
    requires b.reservations == a.reservations + [row]
    requires entry.component == Local && entry.origin == Some(row.invoiceId) && entry.delta == row.outstandingReserved
    requires forall i :: NamedDelta(Entries(b.ledger), i) == NamedDelta(Entries(a.ledger), i) + NamedDelta([entry], i)
    ensures InvoicesReplay(b)
  {
    OneEntry(entry);
    forall i ensures NamedDelta(Entries(b.ledger), i) == OutstandingOf(b.reservations, i) {
      assert NamedDelta(Entries(a.ledger), i) == OutstandingOf(a.reservations, i);
      LocateAppend(a.reservations, row, i);
    }
  }

  lemma ReserveShape(a: Account, c: Command, amount: int, currency: string, rate: Option<ScaledRate>, now: Time)
    returns (d: ReserveDecision, row: ReservationRow)
    requires ReserveWork(a, c, amount, currency, rate, now).Done?
    ensures var p := a.program.position;
      && DecideReservation(p, amount, Resolve(currency, p.currency, rate)) == Success(d)
      && row == NewReservation(c, amount, currency, p.currency, d, now)
    ensures Locate(a.reservations, c.invoiceId) == |a.reservations| && RowFits(row) && RowChecks(row)
    ensures var b := Persist(a.(reservations := a.reservations + [row]), [LocalEntry(c, d.reserved, Reservation)], now, false);
      b.Success? && ReserveWork(a, c, amount, currency, rate, now) == Done(b.value, Body(row, b.value.program))
  {
    hide Persist, RowFits, RowChecks;
    var p := a.program.position;
    d := DecideReservation(p, amount, Resolve(currency, p.currency, rate)).value;
    row := NewReservation(c, amount, currency, p.currency, d, now);
  }

  lemma PersistKeepsReservations(a: Account, entries: seq<PendingEntry>, now: Time, reconciling: bool)
    ensures Persist(a, entries, now, reconciling).Success? ==>
      && Persist(a, entries, now, reconciling).value.reservations == a.reservations
      && Persist(a, entries, now, reconciling).value.positions == a.positions
  {
  }

  lemma ReserveKeepsBook(a: Account, c: Command, amount: int, currency: string, rate: Option<ScaledRate>, now: Time)
    requires AccountInv(a) && ReserveWork(a, c, amount, currency, rate, now).Done?
    ensures AccountInv(ReserveWork(a, c, amount, currency, rate, now).account)
  {
    var d, row := ReserveShape(a, c, amount, currency, rate, now);
    var entry := LocalEntry(c, d.reserved, Reservation);
    var a' := a.(reservations := a.reservations + [row]);
    AcceptedReservationIsSound(a, c, amount, currency, rate, now);
    hide ReserveWork, Persist, Sound, RowFits, RowChecks;
    PersistKeepsLedger(a', [entry], now, false);
    PersistKeepsReservations(a', [entry], now, false);
    OneEntry(entry);
    OutstandingAppend(a.reservations, row, Any);
    var b := Persist(a', [entry], now, false).value;
    AppendKeepsReplay(a, b, row, entry);
  }

  lemma WorkKeepsBook(a: Account, c: Command, rate: Option<ScaledRate>, now: Time)
    requires AccountInv(a) && WorkOf(a, c, rate, now).Done?
    ensures AccountInv(WorkOf(a, c, rate, now).account)
  {
    match c.action
    case ReserveAction(amount, currency) => ReserveKeepsBook(a, c, amount, currency, rate, now);
    case ReleaseAction(amount, currency) => ReleaseKeepsBook(a, c, amount, currency, now);
    case CancelAction(_, _) => CancelKeepsBook(a, c, now);
  }

  // ---------- Events ----------

  /** The rows change only in their acknowledgement, references and timestamps. */
  ghost predicate SameMoney(a: seq<ReservationRow>, b: seq<ReservationRow>) {
    && |a| == |b|
    && forall k :: 0 <= k < |a| ==>
      && b[k] == a[k].(acknowledged := b[k].acknowledged, acknowledgedByVersion := b[k].acknowledgedByVersion,
                       treasuryReference := b[k].treasuryReference, updatedAt := b[k].updatedAt)
      && (b[k].acknowledged == b[k].acknowledgedByVersion.Some?)
  }

  lemma SameMoneyKeepsBook(a: Account, b: Account)
    requires AccountInv(a) && LedgerInv(b) && SameMoney(a.reservations, b.reservations)
    requires forall i :: NamedDelta(Entries(b.ledger), i) == NamedDelta(Entries(a.ledger), i)
    requires b.program.position.localReserved == a.program.position.localReserved
    requires !b.program.position.investigationRequired
    ensures AccountInv(b)
  {
    OutstandingSame(a.reservations, b.reservations, Any, Any);
    forall i ensures NamedDelta(Entries(b.ledger), i) == OutstandingOf(b.reservations, i) {
      assert NamedDelta(Entries(a.ledger), i) == OutstandingOf(a.reservations, i);
      assert Locate(a.reservations, i) == Locate(b.reservations, i);
    }
  }

  lemma EventKeepsBook(a: Account, e: CapacityEvent, at: Coordinates, now: Time)
    requires AccountInv(a) && EventWork(a, e, at, now).Success?
    ensures AccountInv(EventWork(a, e, at, now).value)
  {
    var b := EventWork(a, e, at, now).value;
    if !IsEcho(a.reservations, e) {
      var entry := EventEntry(e, a.program.position.creditLimit);
      PersistKeepsLedger(a, [entry], now, false);
      OneEntry(entry);
      forall i ensures NamedDelta(Entries(b.ledger), i) == NamedDelta(Entries(a.ledger), i) {
        assert NamedDelta(Entries(b.ledger), i) == NamedDelta(Entries(a.ledger), i) + NamedDelta([entry], i);
      }
    }
    SameMoneyKeepsBook(a, b);
  }

  // ---------- Snapshots ----------

  lemma AcknowledgedIdsAreThose(marker: Marker, version: int, rows: seq<ReservationRow>, id: string)
    ensures id in AcknowledgedIds(marker, version, rows)
      <==> exists k :: 0 <= k < |rows| && rows[k].invoiceId == id && Acknowledges(marker, version, rows[k])
  {
  }

  /** The UPDATE by ids writes exactly the rows the policy marked. */
  lemma MarkIdsIsMark(marker: Marker, version: int, rows: seq<ReservationRow>, now: Time)
    requires DistinctInvoices(rows)
    ensures var written := MarkIds(rows, AcknowledgedIds(marker, version, rows), version, now);
      && |written| == |rows|
      && forall k :: 0 <= k < |rows| ==>
        && written[k].(updatedAt := rows[k].updatedAt) == MarkRow(marker, version, rows[k])
        && (!Acknowledges(marker, version, rows[k]) ==> written[k] == rows[k])
  {
    forall k | 0 <= k < |rows|
      ensures rows[k].invoiceId in AcknowledgedIds(marker, version, rows) <==> Acknowledges(marker, version, rows[k])
    {
      AcknowledgedIdsAreThose(marker, version, rows, rows[k].invoiceId);
    }
  }

  lemma MarkingKeepsMoney(marker: Marker, version: int, rows: seq<ReservationRow>, now: Time)
    requires DistinctInvoices(rows) && AllSound(rows)
    ensures SameMoney(rows, MarkIds(rows, AcknowledgedIds(marker, version, rows), version, now))
  {
  }

  lemma OneCorrection(s: Snapshot, component: Component, delta: int)
    ensures NoMarkers(CorrectionFor(s, component, delta))
    ensures forall c :: Delta(CorrectionFor(s, component, delta), c) == if c == component then delta else 0
    ensures component != Local ==> forall i :: NamedDelta(CorrectionFor(s, component, delta), i) == 0
  {
  }

  /** The entries of a snapshot add up to its deltas, and name no invoice unless LOCAL moves. */
  lemma CorrectionsSum(s: Snapshot, d: SnapshotDeltas)
    ensures NoMarkers(Corrections(s, d))
    ensures Delta(Corrections(s, d), Treasury) == d.treasury
    ensures Delta(Corrections(s, d), Local) == d.local
    ensures Delta(Corrections(s, d), Limit) == d.limit
    ensures d.local == 0 ==> forall i :: NamedDelta(Corrections(s, d), i) == 0
  {
    var t, x, l := CorrectionFor(s, Treasury, d.treasury), CorrectionFor(s, Local, d.local), CorrectionFor(s, Limit, d.limit);
    OneCorrection(s, Treasury, d.treasury);
    OneCorrection(s, Local, d.local);
    OneCorrection(s, Limit, d.limit);
    forall c ensures Delta(t + x + l, c) == Delta(t, c) + Delta(x, c) + Delta(l, c) {
      DeltaConcat(t + x, l, c);
      DeltaConcat(t, x, c);
    }
    forall i ensures NamedDelta(t + x + l, i) == NamedDelta(t, i) + NamedDelta(x, i) + NamedDelta(l, i) {
      NamedDeltaConcat(t + x, l, i);
      NamedDeltaConcat(t, x, i);
    }
  }

  /** In a good state a snapshot finds LOCAL already right. */
  lemma SnapshotMoves(a: Account, s: Snapshot, marker: Marker)
    requires AccountInv(a)
    requires SnapshotPolicy(a.program.position, s.version, s.reserved, s.creditLimit, marker, a.reservations).Apply?
    ensures var d := SnapshotPolicy(a.program.position, s.version, s.reserved, s.creditLimit, marker, a.reservations);
      !d.investigationRequired && d.deltas.local == 0
  {
    LocalIsEverySum(a);
    AdditiveRule(a.program.position, s.version, s.reserved, s.creditLimit, marker, a.reservations);
  }

  lemma SnapshotPersists(a: Account, s: Snapshot, marker: Marker, now: Time)
    requires AccountInv(a) && Parsed(s)
    requires SnapshotPolicy(a.program.position, s.version, s.reserved, s.creditLimit, marker, a.reservations).Apply?
    ensures var p := a.program.position;
      var d := SnapshotPolicy(p, s.version, s.reserved, s.creditLimit, marker, a.reservations).deltas;
      var b := Persist(a, Corrections(s, d), now, true);
      && b.Success? && LedgerInv(b.value)
      && b.value.program.position.localReserved == p.localReserved
      && b.value.program.position.treasuryReserved == s.reserved - Outstanding(Mark(marker, s.version, a.reservations), AcknowledgedLocal)
      && b.value.program.position.creditLimit == s.creditLimit
      && (forall i :: NamedDelta(Entries(b.value.ledger), i) == NamedDelta(Entries(a.ledger), i))
  {
    var p := a.program.position;
    var d := SnapshotPolicy(p, s.version, s.reserved, s.creditLimit, marker, a.reservations).deltas;
    SnapshotMoves(a, s, marker);
    CorrectionsSum(s, d);
    MarkedNonNegative(a, s, marker);
    PersistAccepts(a, Corrections(s, d), now, true);
    PersistKeepsLedger(a, Corrections(s, d), now, true);
  }

  lemma MarkedNonNegative(a: Account, s: Snapshot, marker: Marker)
    requires AccountInv(a)
    ensures Outstanding(Mark(marker, s.version, a.reservations), AcknowledgedLocal) >= 0
  {
    OutstandingBounds(Mark(marker, s.version, a.reservations), 0, AcknowledgedLocal);
  }

  /** A parsed snapshot never breaks a constraint, and accepting it keeps the book. */
  lemma {:induction false} SnapshotKeepsBook(a: Account, s: Snapshot, marker: Marker, at: Coordinates, now: Time, basisPoints: int)
    requires AccountInv(a) && Parsed(s)
    ensures !SnapshotWorkOf(a, s, marker, at, now, basisPoints).Breaks?
    ensures SnapshotWorkOf(a, s, marker, at, now, basisPoints).Accepts? ==>
      AccountInv(SnapshotWorkOf(a, s, marker, at, now, basisPoints).account)
  {
    var p := a.program.position;
    var d := SnapshotPolicy(p, s.version, s.reserved, s.creditLimit, marker, a.reservations);
    if d.Apply? && !ExceedsMagnitudeGuard(d.deltas.treasury, p.creditLimit, basisPoints) {
      SnapshotPersists(a, s, marker, now);
      SnapshotMoves(a, s, marker);
      MarkingKeepsMoney(marker, s.version, a.reservations, now);
      SameMoneyKeepsBook(a, SnapshotWorkOf(a, s, marker, at, now, basisPoints).account);
    }
  }

  /**
   * The account `b` after a snapshot accepted in `a`: the total is what the snapshot states plus the
   * outstanding it has not acknowledged; LOCAL did not move; TREASURY moved by no more than the
   * guarded share of the old limit; the position is verified and needs no investigation.
   */
  predicate Realises(a: Account, b: Account, s: Snapshot, basisPoints: int) {
    var p, q := a.program.position, b.program.position;
    && TotalReserved(q) == s.reserved + Outstanding(b.reservations, UnacknowledgedLocal)
    && q.treasuryReserved >= 0 && q.creditLimit == s.creditLimit && q.localReserved == p.localReserved
    && Abs(q.treasuryReserved - p.treasuryReserved) * 10_000 <= basisPoints * p.creditLimit
    && q.positionVerified && !q.investigationRequired
    && b.program.treasuryVersion == s.version
  }

  lemma {:induction false} AcceptedSnapshot(a: Account, s: Snapshot, marker: Marker, at: Coordinates, now: Time, basisPoints: int)
    requires AccountInv(a) && Parsed(s) && SnapshotWorkOf(a, s, marker, at, now, basisPoints).Accepts?
    ensures Realises(a, SnapshotWorkOf(a, s, marker, at, now, basisPoints).account, s, basisPoints)
  {
    var p := a.program.position;
    var d := SnapshotPolicy(p, s.version, s.reserved, s.creditLimit, marker, a.reservations);
    var b := SnapshotWorkOf(a, s, marker, at, now, basisPoints).account;
    SnapshotPersists(a, s, marker, now);
    SnapshotMoves(a, s, marker);
    AdditiveRule(p, s.version, s.reserved, s.creditLimit, marker, a.reservations);
    MarkIdsIsMark(marker, s.version, a.reservations, now);
    OutstandingSame(Mark(marker, s.version, a.reservations), b.reservations, UnacknowledgedLocal, UnacknowledgedLocal);
  }
}
