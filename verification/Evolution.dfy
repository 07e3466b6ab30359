/** What can never be undone: how any later committed database relates to an earlier one. */
module Evolution {
  import opened Wrappers
  import opened Arithmetic
  import opened Domain
  import opened Policies
  import opened Tables
  import opened Ledger
  import opened Book
  import opened Runs

  // ---------- The relation ----------

  predicate VersionGrows(a: Option<int>, b: Option<int>) {
    a.Some? ==> b.Some? && a.value <= b.value
  }

  /**
   * A reservation keeps its identity and terms, only ever loses outstanding, stays closed once
   * closed, stays acknowledged once acknowledged, by versions that never decrease.
   */
  predicate RowEvolves(r: ReservationRow, s: ReservationRow) {
    && s.invoiceId == r.invoiceId && s.invoiceAmount == r.invoiceAmount && s.reserved == r.reserved
    && s.invoiceCurrency == r.invoiceCurrency && s.fxRate == r.fxRate && s.confirmedAt == r.confirmedAt
    && s.outstandingInvoice <= r.outstandingInvoice && s.outstandingReserved <= r.outstandingReserved
    && (Terminal(r.status) ==> s.status == r.status && s.outstandingReserved == r.outstandingReserved)
    && (r.acknowledged ==> s.acknowledged)
    && VersionGrows(r.acknowledgedByVersion, s.acknowledgedByVersion)
  }

  predicate RowsEvolve(a: seq<ReservationRow>, b: seq<ReservationRow>) {
    |a| <= |b| && forall k :: 0 <= k < |a| ==> RowEvolves(a[k], b[k])
  }

  predicate AccountEvolves(a: Account, b: Account) {
    && b.program.position.currency == a.program.position.currency
    && a.program.treasuryVersion <= b.program.treasuryVersion
    && VersionGrows(a.program.appliedEffectiveAt, b.program.appliedEffectiveAt)
    && a.ledger <= b.ledger
    && RowsEvolve(a.reservations, b.reservations)
  }

  predicate RecordEvolves(r: RequestRecord, s: RequestRecord) {
    s == r || (r.state.Complete? && s == r.(state := Expired))
  }

  ghost predicate Evolves(a: Db, b: Db) {
    && (forall p :: p in a.accounts ==> p in b.accounts && AccountEvolves(a.accounts[p], b.accounts[p]))
    && (forall k :: k in a.requests ==> k in b.requests && RecordEvolves(a.requests[k], b.requests[k]))
    && a.processed <= b.processed
  }

  lemma EvolvesTransitive(a: Db, b: Db, c: Db)
    requires Evolves(a, b) && Evolves(b, c)
    ensures Evolves(a, c)
  {
    forall p | p in a.accounts ensures AccountEvolves(a.accounts[p], c.accounts[p]) {
      AccountTransitive(a.accounts[p], b.accounts[p], c.accounts[p]);
    }
  }

  lemma AccountTransitive(a: Account, b: Account, c: Account)
    requires AccountEvolves(a, b) && AccountEvolves(b, c)
    ensures AccountEvolves(a, c)
  {
  }

  // ---------- Every step respects it ----------

  lemma SettleEvolves(a: Account, i: nat, row: ReservationRow, entry: PendingEntry, now: Time)
    requires i < |a.reservations| && RowEvolves(a.reservations[i], row) && Settle(a, i, row, entry, now).Done?
    ensures AccountEvolves(a, Settle(a, i, row, entry, now).account)
  {
  }

  lemma ReserveEvolves(a: Account, c: Command, amount: int, currency: string, rate: Option<ScaledRate>, now: Time)
    requires ReserveWork(a, c, amount, currency, rate, now).Done?
    ensures AccountEvolves(a, ReserveWork(a, c, amount, currency, rate, now).account)
  {
  }

  lemma ReleaseEvolves(a: Account, c: Command, amount: int, currency: string, now: Time)
    requires AccountInv(a) && ReleaseWork(a, c, amount, currency, now).Done?
    ensures AccountEvolves(a, ReleaseWork(a, c, amount, currency, now).account)
  {
    var i, d := ReleaseShape(a, c, amount, currency, now);
    ReleaseKeepsSound(a.reservations[i], amount, currency);
    SettleEvolves(a, i, Released(a.reservations[i], d).(updatedAt := now), LocalEntry(c, -d.delta, Release), now);
  }

  lemma CancelEvolves(a: Account, c: Command, now: Time)
    requires AccountInv(a) && CancelWork(a, c, now).Done?
    ensures AccountEvolves(a, CancelWork(a, c, now).account)
  {
    var i, d := CancelShape(a, c, now);
    SettleEvolves(a, i, CancelledRow(a.reservations[i], d).(updatedAt := now), LocalEntry(c, -d.delta, d.cause), now);
  }

  lemma WorkEvolves(a: Account, c: Command, rate: Option<ScaledRate>, now: Time)
    requires AccountInv(a) && WorkOf(a, c, rate, now).Done?
    ensures AccountEvolves(a, WorkOf(a, c, rate, now).account)
  {
    match c.action
    case ReserveAction(amount, currency) => ReserveEvolves(a, c, amount, currency, rate, now);
    case ReleaseAction(amount, currency) => ReleaseEvolves(a, c, amount, currency, now);
    case CancelAction(_, _) => CancelEvolves(a, c, now);
  }

  lemma EventEvolves(a: Account, e: CapacityEvent, at: Coordinates, now: Time)
    requires AccountInv(a) && EventWork(a, e, at, now).Success?
    ensures AccountEvolves(a, EventWork(a, e, at, now).value)
  {
    if !IsEcho(a.reservations, e) {
      PersistAppends(a, [EventEntry(e, a.program.position.creditLimit)], now, false);
    }
  }

  lemma MarkedRowsEvolve(marker: Marker, version: int, rows: seq<ReservationRow>, now: Time)
    requires DistinctInvoices(rows) && AllSound(rows)
    ensures RowsEvolve(rows, MarkIds(rows, AcknowledgedIds(marker, version, rows), version, now))
  {
    MarkIdsIsMark(marker, version, rows, now);
    var written := MarkIds(rows, AcknowledgedIds(marker, version, rows), version, now);
    forall k | 0 <= k < |rows| ensures RowEvolves(rows[k], written[k]) {
      assert written[k].(updatedAt := rows[k].updatedAt) == MarkRow(marker, version, rows[k]);
    }
  }

  lemma SnapshotEvolves(a: Account, s: Snapshot, marker: Marker, at: Coordinates, now: Time, basisPoints: int)
    requires AccountInv(a) && a.program.treasuryVersion <= s.version
    requires SnapshotWorkOf(a, s, marker, at, now, basisPoints).Accepts?
    ensures AccountEvolves(a, SnapshotWorkOf(a, s, marker, at, now, basisPoints).account)
  {
    var d := SnapshotPolicy(a.program.position, s.version, s.reserved, s.creditLimit, marker, a.reservations);
    PersistAppends(a, Corrections(s, d.deltas), now, true);
    MarkedRowsEvolve(marker, s.version, a.reservations, now);
  }

  /** Replacing one account by one that evolves from it, and appending to processed, is an evolution. */
  lemma AccountStepEvolves(db: Db, p: string, b: Account, more: seq<ProcessedRow>)
    requires p in db.accounts && AccountEvolves(db.accounts[p], b)
    ensures Evolves(db, db.(accounts := db.accounts[p := b], processed := db.processed + more))
  {
  }

  lemma ConcludeEvolves(db: Db, c: Command, work: Work, now: Time)
    requires c.programId in db.accounts
    requires work.Done? ==> AccountEvolves(db.accounts[c.programId], work.account)
    ensures Evolves(db, Conclude(db, c, work, now).0)
  {
  }

  lemma RequestEvolves(db: Db, c: Command, rate: Option<ScaledRate>, now: Time)
    requires Inv(db)
    ensures Evolves(db, RunRequest(db, c, rate, now).0)
  {
    if c.programId in db.accounts {
      var work := WorkOf(db.accounts[c.programId], c, rate, now);
      if work.Done? { WorkEvolves(db.accounts[c.programId], c, rate, now); }
      ConcludeEvolves(db, c, work, now);
    }
  }

  lemma DeliveryEvolves(db: Db, e: CapacityEvent, at: Coordinates, now: Time)
    requires Inv(db)
    ensures Evolves(db, RunEvent(db, e, at, now).0)
  {
    if RunEvent(db, e, at, now).0 != db {
      var b := AppliedEventShape(db, e, at, now);
      EventEvolves(db.accounts[e.programId], e, at, now);
      AccountStepEvolves(db, e.programId, b, [ProcessedEvent(e)]);
    }
  }

  lemma CorrectionEvolves(db: Db, s: Snapshot, at: Coordinates, now: Time, basisPoints: int)
    requires Inv(db)
    ensures Evolves(db, RunSnapshot(db, s, at, now, basisPoints).0)
  {
    if RunSnapshot(db, s, at, now, basisPoints).0 != db {
      var work := AppliedShape(db, s, at, now, basisPoints);
      SnapshotEvolves(db.accounts[s.programId], s, s.acknowledgement.value, at, now, basisPoints);
      AccountStepEvolves(db, s.programId, work.account, [ProcessedSnapshot(s)]);
    }
  }

  lemma FlagEvolves(db: Db, p: string, verified: bool, investigate: bool)
    requires p in db.accounts
    ensures Evolves(db, Flag(db, p, verified, investigate))
  {
  }

  lemma AssignEvolves(db: Db, p: string, invoiceId: string, reference: string)
    ensures Evolves(db, RunAssign(db, p, invoiceId, reference))
  {
  }

  lemma SweepEvolves(db: Db, cutoff: Time)
    ensures Evolves(db, RunSweep(db, cutoff))
  {
    hide AccountEvolves;
    AccountsEvolve(db);
  }

  lemma AccountsEvolve(db: Db)
    ensures forall p :: p in db.accounts ==> AccountEvolves(db.accounts[p], db.accounts[p])
  {
  }

  lemma SeedEvolves(db: Db, p: string, organisation: string, currency: string, creditLimit: int, now: Time)
    ensures Evolves(db, RunSeed(db, p, organisation, currency, creditLimit, now))
  {
    hide AccountEvolves, Persist;
    AccountsEvolve(db);
  }

  lemma JobEvolves(db: Db, op: Op)
    requires IsJob(op)
    ensures Evolves(db, Step(db, op))
  {
    hide AccountEvolves, RecordEvolves, RunSweep, RunSeed, RunAssign, Flag, Unverifiable, Drifted;
    AccountsEvolve(db);
    RecordsEvolve(db);
    match op
    case Sweep(cutoff) => SweepEvolves(db, cutoff);
    case Seed(p, organisation, currency, creditLimit, now) => SeedEvolves(db, p, organisation, currency, creditLimit, now);
    case DetectWrite(p) => if p in db.accounts { FlagEvolves(db, p, false, false); }
    case DriftWrite(p) => if p in db.accounts { FlagEvolves(db, p, true, true); }
    case AssignReference(p, invoiceId, reference) => AssignEvolves(db, p, invoiceId, reference);
    case LosePositions(p) => if p in db.accounts { PositionsEvolve(db, p); }
    case _ =>
  }

  lemma RecordsEvolve(db: Db)
    ensures forall k :: k in db.requests ==> RecordEvolves(db.requests[k], db.requests[k])
  {
  }

  lemma PositionsEvolve(db: Db, p: string)
    requires p in db.accounts
    ensures Evolves(db, Step(db, LosePositions(p)))
  {
    AccountStepEvolves(db, p, db.accounts[p].(positions := []), []);
  }

  lemma StepEvolves(db: Db, op: Op)
    requires Inv(db)
    ensures Evolves(db, Step(db, op))
  {
    match op
    case Request(c, rate, now) => RequestEvolves(db, c, rate, now);
    case DeliverEvent(e, at, now) => DeliveryEvolves(db, e, at, now);
    case DeliverSnapshot(s, at, now, basisPoints) => CorrectionEvolves(db, s, at, now, basisPoints);
    case _ => JobEvolves(db, op);
  }

  /** Over any run from a good database, nothing recorded is lost or taken back. */
  lemma {:induction false} RunEvolves(db: Db, ops: seq<Op>)
    requires Inv(db) && AllWellFormed(ops)
    ensures Inv(Run(db, ops)) && Evolves(db, Run(db, ops))
  {
    if ops != [] {
      var before := Run(db, ops[..|ops| - 1]);
      RunEvolves(db, ops[..|ops| - 1]);
      StepKeepsInv(before, ops[|ops| - 1]);
      StepEvolves(before, ops[|ops| - 1]);
      EvolvesTransitive(db, before, Run(db, ops));
    }
  }

  lemma RunSplits(db: Db, a: seq<Op>, b: seq<Op>)
    ensures Run(db, a + b) == Run(Run(db, a), b)
  {
    if b == [] {
      assert a + b == a;
    } else {
      RunSplits(db, a, b[..|b| - 1]);
      assert (a + b)[..|a + b| - 1] == a + b[..|b| - 1];
    }
  }
}
