/** Recovery detection: silent in every orderly run, and alarmed when stream positions are lost. */
module Recovery {
  import opened Wrappers
  import opened Arithmetic
  import opened Domain
  import opened Policies
  import opened Tables
  import opened Ledger
  import opened Book
  import opened Runs
  import opened Evolution

  // ---------- Orderly runs ----------

  function TimeOf(op: Op): Option<Time> {
    match op
    case Request(_, _, now) => Some(now)
    case DeliverEvent(_, _, now) => Some(now)
    case DeliverSnapshot(_, _, now, _) => Some(now)
    case Seed(_, _, _, _, now) => Some(now)
    case _ => None
  }

  function Clock(ops: seq<Op>): Option<Time> {
    if ops == [] then None
    else if TimeOf(ops[|ops| - 1]).Some? then TimeOf(ops[|ops| - 1])
    else Clock(ops[..|ops| - 1])
  }

  predicate NotBefore(clock: Option<Time>, t: Option<Time>) {
    clock.Some? && t.Some? ==> clock.value <= t.value
  }

  /** The stored offset of the stream, if there is one, is behind these coordinates. */
  predicate Ahead(rows: seq<StreamRow>, at: Coordinates) {
    var i := LocateStream(rows, at.topic, at.partition);
    i == |rows| || rows[i].offset < at.offset
  }

  /** A message that takes effect is ahead of what its partition has already applied to the program. */
  predicate InOrder(db: Db, op: Op) {
    match op
    case DeliverEvent(e, at, now) => RunEvent(db, e, at, now).0 == db || Ahead(db.accounts[e.programId].positions, at)
    case DeliverSnapshot(s, at, now, basisPoints) =>
      RunSnapshot(db, s, at, now, basisPoints).0 == db || Ahead(db.accounts[s.programId].positions, at)
    case _ => true
  }

  /** The clock never goes back, applied offsets increase in each partition, and no position row is lost. */
  predicate Orderly(ops: seq<Op>) {
    ops == [] ||
    var before, op := ops[..|ops| - 1], ops[|ops| - 1];
    && Orderly(before) && WellFormed(op) && !op.LosePositions?
    && NotBefore(Clock(before), TimeOf(op)) && InOrder(Run(EMPTY, before), op)
  }

  // ---------- What an orderly account satisfies ----------

  predicate By(t: Time, clock: Option<Time>) {
    clock.Some? && t <= clock.value
  }

  predicate UpTo(a: Account, clock: Option<Time>) {
    && (forall k :: 0 <= k < |a.ledger| ==> By(a.ledger[k].occurredAt, clock))
    && (forall k :: 0 <= k < |a.positions| ==> By(a.positions[k].updatedAt, clock))
  }

  predicate Covered(ledger: seq<LedgerRow>, positions: seq<StreamRow>) {
    LedgerAt(ledger).Some? ==> PositionAt(positions).Some? && PositionAt(positions).value >= LedgerAt(ledger).value
  }

  predicate Timely(a: Account, clock: Option<Time>) {
    UpTo(a, clock) && Covered(a.ledger, a.positions) && a.program.position.positionVerified
  }

  predicate RecoveryInv(db: Db, clock: Option<Time>) {
    db.suspects == {} && forall p :: p in db.accounts ==> Timely(db.accounts[p], clock)
  }

  lemma LedgerAtBounded(ledger: seq<LedgerRow>, t: Time)
    requires forall k :: 0 <= k < |ledger| ==> ledger[k].occurredAt <= t
    ensures LedgerAt(ledger).Some? ==> LedgerAt(ledger).value <= t
  {
  }

  lemma LedgerAtUncounted(ledger: seq<LedgerRow>, more: seq<LedgerRow>)
    requires forall k :: 0 <= k < |more| ==> !CountsForRecovery(more[k])
    ensures LedgerAt(ledger + more) == LedgerAt(ledger)
  {
    if more == [] {
      assert ledger + more == ledger;
    } else {
      LedgerAtUncounted(ledger, more[..|more| - 1]);
      assert (ledger + more)[..|ledger + more| - 1] == ledger + more[..|more| - 1];
    }
  }

  lemma PositionAtReaches(rows: seq<StreamRow>, i: nat)
    requires i < |rows|
    ensures PositionAt(rows).Some? && PositionAt(rows).value >= rows[i].updatedAt
  {
  }

  /** A message that is ahead stamps its position row, so the newest position is at least now. */
  lemma UpsertStamps(rows: seq<StreamRow>, at: Coordinates, now: Time)
    requires Ahead(rows, at)
    ensures PositionAt(Upsert(rows, at, now)).Some? && PositionAt(Upsert(rows, at, now)).value >= now
  {
    var i := LocateStream(rows, at.topic, at.partition);
    PositionAtReaches(Upsert(rows, at, now), i);
  }

  lemma PersistWrites(a: Account, entries: seq<PendingEntry>, now: Time, reconciling: bool)
    requires Persist(a, entries, now, reconciling).Success?
    ensures var b, rows := Persist(a, entries, now, reconciling).value, Advance(a.program.position, entries, now).entries;
      && b.ledger == a.ledger + LedgerRows(rows, now) && b.positions == a.positions
      && b.program.position.positionVerified == a.program.position.positionVerified
  {
    hide Batch;
  }

  /** The causes of LOCAL entries and of markers do not count. */
  lemma BatchIsUncounted(p: Position, entries: seq<PendingEntry>, now: Time)
    requires forall k :: 0 <= k < |entries| ==> entries[k].cause in {Reservation, Release, Cancellation, WriteOff}
    ensures forall k :: 0 <= k < |LedgerRows(Advance(p, entries, now).entries, now)| ==>
      !CountsForRecovery(LedgerRows(Advance(p, entries, now).entries, now)[k])
  {
  }

  lemma UpToAppends(a: Account, b: Account, rows: seq<LedgerRow>, now: Time, clock: Option<Time>)
    requires UpTo(a, clock) && NotBefore(clock, Some(now)) && forall k :: 0 <= k < |rows| ==> rows[k].occurredAt == now
    requires b.ledger == a.ledger + rows && b.positions == a.positions
    ensures UpTo(b, Some(now))
  {
    forall k | 0 <= k < |b.ledger| ensures By(b.ledger[k].occurredAt, Some(now)) {
      assert k < |a.ledger| ==> By(a.ledger[k].occurredAt, clock);
    }
  }

  lemma RowsAreStamped(entries: seq<SequencedEntry>, now: Time)
    ensures forall k :: 0 <= k < |LedgerRows(entries, now)| ==> LedgerRows(entries, now)[k].occurredAt == now
  {
  }

  lemma PersistIsTimely(a: Account, entries: seq<PendingEntry>, now: Time, reconciling: bool, clock: Option<Time>)
    requires Timely(a, clock) && NotBefore(clock, Some(now)) && Persist(a, entries, now, reconciling).Success?
    ensures UpTo(Persist(a, entries, now, reconciling).value, Some(now))
    ensures (forall k :: 0 <= k < |entries| ==> entries[k].cause in {Reservation, Release, Cancellation, WriteOff}) ==>
      Timely(Persist(a, entries, now, reconciling).value, Some(now))
  {
    var rows := LedgerRows(Advance(a.program.position, entries, now).entries, now);
    hide Persist, Advance, LedgerRows, LedgerAt, PositionAt, CountsForRecovery, UpTo;
    RowsAreStamped(Advance(a.program.position, entries, now).entries, now);
    PersistWrites(a, entries, now, reconciling);
    UpToAppends(a, Persist(a, entries, now, reconciling).value, rows, now, clock);
    if forall k :: 0 <= k < |entries| ==> entries[k].cause in {Reservation, Release, Cancellation, WriteOff} {
      BatchIsUncounted(a.program.position, entries, now);
      LedgerAtUncounted(a.ledger, rows);
    }
  }

  lemma SettleIsTimely(a: Account, i: nat, row: ReservationRow, entry: PendingEntry, now: Time, clock: Option<Time>)
    requires Timely(a, clock) && NotBefore(clock, Some(now)) && i < |a.reservations| && Settle(a, i, row, entry, now).Done?
    requires entry.cause in {Reservation, Release, Cancellation, WriteOff}
    ensures Timely(Settle(a, i, row, entry, now).account, Some(now))
  {
    PersistIsTimely(a, [entry], now, false, clock);
  }

  lemma SameRowsAreTimely(a: Account, b: Account, clock: Option<Time>)
    requires Timely(a, clock) && b.ledger == a.ledger && b.positions == a.positions && b.program == a.program
    ensures Timely(b, clock)
  {
  }

  lemma ReserveIsTimely(a: Account, c: Command, amount: int, currency: string, rate: Option<ScaledRate>, now: Time, clock: Option<Time>)
    requires Timely(a, clock) && NotBefore(clock, Some(now)) && ReserveWork(a, c, amount, currency, rate, now).Done?
    ensures Timely(ReserveWork(a, c, amount, currency, rate, now).account, Some(now))
  {
    hide Persist, LedgerAt, PositionAt;
    var d, row := ReserveShape(a, c, amount, currency, rate, now);
    var b := a.(reservations := a.reservations + [row]);
    SameRowsAreTimely(a, b, clock);
    hide Timely;
    PersistIsTimely(b, [LocalEntry(c, d.reserved, Reservation)], now, false, clock);
  }

  lemma ReleaseIsTimely(a: Account, c: Command, amount: int, currency: string, now: Time, clock: Option<Time>)
    requires Timely(a, clock) && NotBefore(clock, Some(now)) && ReleaseWork(a, c, amount, currency, now).Done?
    ensures Timely(ReleaseWork(a, c, amount, currency, now).account, Some(now))
  {
    var i, d := ReleaseShape(a, c, amount, currency, now);
    SettleIsTimely(a, i, Released(a.reservations[i], d).(updatedAt := now), LocalEntry(c, -d.delta, Release), now, clock);
  }

  lemma CancelIsTimely(a: Account, c: Command, now: Time, clock: Option<Time>)
    requires Timely(a, clock) && NotBefore(clock, Some(now)) && CancelWork(a, c, now).Done?
    ensures Timely(CancelWork(a, c, now).account, Some(now))
  {
    var i, d := CancelShape(a, c, now);
    SettleIsTimely(a, i, CancelledRow(a.reservations[i], d).(updatedAt := now), LocalEntry(c, -d.delta, d.cause), now, clock);
  }

  lemma WorkIsTimely(a: Account, c: Command, rate: Option<ScaledRate>, now: Time, clock: Option<Time>)
    requires Timely(a, clock) && NotBefore(clock, Some(now)) && WorkOf(a, c, rate, now).Done?
    ensures Timely(WorkOf(a, c, rate, now).account, Some(now))
  {
    match c.action
    case ReserveAction(amount, currency) => ReserveIsTimely(a, c, amount, currency, rate, now, clock);
    case ReleaseAction(amount, currency) => ReleaseIsTimely(a, c, amount, currency, now, clock);
    case CancelAction(_, _) => CancelIsTimely(a, c, now, clock);
  }

  /** An account whose positions have just been stamped is covered, whatever its ledger gained. */
  lemma StampedIsCovered(a: Account, at: Coordinates, now: Time)
    requires UpTo(a, Some(now)) && Ahead(a.positions, at)
    ensures Covered(a.ledger, Upsert(a.positions, at, now))
    ensures UpTo(a.(positions := Upsert(a.positions, at, now)), Some(now))
  {
    LedgerAtBounded(a.ledger, now);
    UpsertStamps(a.positions, at, now);
  }

  lemma EventIsTimely(a: Account, e: CapacityEvent, at: Coordinates, now: Time, clock: Option<Time>)
    requires Timely(a, clock) && NotBefore(clock, Some(now)) && Ahead(a.positions, at) && EventWork(a, e, at, now).Success?
    ensures Timely(EventWork(a, e, at, now).value, Some(now))
  {
    if IsEcho(a.reservations, e) {
      StampedIsCovered(a, at, now);
    } else {
      var entries := [EventEntry(e, a.program.position.creditLimit)];
      PersistIsTimely(a, entries, now, false, clock);
      StampedIsCovered(Persist(a, entries, now, false).value, at, now);
    }
  }

  lemma SnapshotIsTimely(a: Account, s: Snapshot, marker: Marker, at: Coordinates, now: Time, basisPoints: int, clock: Option<Time>)
    requires Timely(a, clock) && NotBefore(clock, Some(now)) && Ahead(a.positions, at)
    requires SnapshotWorkOf(a, s, marker, at, now, basisPoints).Accepts?
    ensures Timely(SnapshotWorkOf(a, s, marker, at, now, basisPoints).account, Some(now))
  {
    var d := SnapshotPolicy(a.program.position, s.version, s.reserved, s.creditLimit, marker, a.reservations).deltas;
    PersistIsTimely(a, Corrections(s, d), now, true, clock);
    StampedIsCovered(Persist(a, Corrections(s, d), now, true).value, at, now);
  }

  lemma SeedIsTimely(organisation: string, currency: string, creditLimit: int, now: Time)
    ensures var entry := PendingEntry(creditLimit, Limit, LimitChange, None, "seed", "seed-limit-change");
      var b := Persist(NewProgram(organisation, currency, now), [entry], now, false);
      b.Success? ==> Timely(b.value, Some(now))
  {
    var entry := PendingEntry(creditLimit, Limit, LimitChange, None, "seed", "seed-limit-change");
    var a := NewProgram(organisation, currency, now);
    if Persist(a, [entry], now, false).Success? {
      PersistAppends(a, [entry], now, false);
      LedgerAtUncounted([], LedgerRows(Advance(a.program.position, [entry], now).entries, now));
    }
  }

  function ClockAfter(clock: Option<Time>, op: Op): Option<Time> {
    if TimeOf(op).Some? then TimeOf(op) else clock
  }

  /** Replacing one account by a timely one, at a time not before the clock, keeps the invariant. */
  lemma AccountKeepsRecovery(db: Db, after: Db, p: string, clock: Option<Time>, now: Time)
    requires RecoveryInv(db, clock) && NotBefore(clock, Some(now))
    requires after.suspects == db.suspects && after.accounts.Keys == db.accounts.Keys + {p}
    requires Timely(after.accounts[p], Some(now))
    requires forall q :: q in db.accounts && q != p ==> after.accounts[q] == db.accounts[q]
    ensures RecoveryInv(after, Some(now))
  {
  }

  lemma LaterKeepsRecovery(db: Db, clock: Option<Time>, now: Time)
    requires RecoveryInv(db, clock) && NotBefore(clock, Some(now))
    ensures RecoveryInv(db, Some(now))
  {
  }

  lemma ConcludeKeepsRecovery(db: Db, c: Command, work: Work, now: Time, clock: Option<Time>)
    requires RecoveryInv(db, clock) && NotBefore(clock, Some(now)) && c.programId in db.accounts
    requires work.Done? ==> Timely(work.account, Some(now))
    ensures RecoveryInv(Conclude(db, c, work, now).0, Some(now))
  {
  }

  lemma RequestKeepsRecovery(db: Db, c: Command, rate: Option<ScaledRate>, now: Time, clock: Option<Time>)
    requires RecoveryInv(db, clock) && NotBefore(clock, Some(now))
    ensures RecoveryInv(RunRequest(db, c, rate, now).0, Some(now))
  {
    if c.programId in db.accounts {
      var work := WorkOf(db.accounts[c.programId], c, rate, now);
      if work.Done? { WorkIsTimely(db.accounts[c.programId], c, rate, now, clock); }
      ConcludeKeepsRecovery(db, c, work, now, clock);
    } else {
      LaterKeepsRecovery(db, clock, now);
    }
  }

  lemma EventKeepsRecovery(db: Db, e: CapacityEvent, at: Coordinates, now: Time, clock: Option<Time>)
    requires RecoveryInv(db, clock) && NotBefore(clock, Some(now)) && InOrder(db, DeliverEvent(e, at, now))
    ensures RecoveryInv(RunEvent(db, e, at, now).0, Some(now))
  {
    if RunEvent(db, e, at, now).0 != db {
      var b := AppliedEventShape(db, e, at, now);
      EventIsTimely(db.accounts[e.programId], e, at, now, clock);
      AccountKeepsRecovery(db, RunEvent(db, e, at, now).0, e.programId, clock, now);
    } else {
      LaterKeepsRecovery(db, clock, now);
    }
  }

  lemma SnapshotKeepsRecovery(db: Db, s: Snapshot, at: Coordinates, now: Time, basisPoints: int, clock: Option<Time>)
    requires RecoveryInv(db, clock) && NotBefore(clock, Some(now)) && InOrder(db, DeliverSnapshot(s, at, now, basisPoints))
    ensures RecoveryInv(RunSnapshot(db, s, at, now, basisPoints).0, Some(now))
  {
    if RunSnapshot(db, s, at, now, basisPoints).0 != db {
      var work := AppliedShape(db, s, at, now, basisPoints);
      SnapshotIsTimely(db.accounts[s.programId], s, s.acknowledgement.value, at, now, basisPoints, clock);
      AccountKeepsRecovery(db, RunSnapshot(db, s, at, now, basisPoints).0, s.programId, clock, now);
    } else {
      LaterKeepsRecovery(db, clock, now);
    }
  }

  lemma SeedKeepsRecovery(db: Db, p: string, organisation: string, currency: string, creditLimit: int, now: Time, clock: Option<Time>)
    requires RecoveryInv(db, clock) && NotBefore(clock, Some(now))
    ensures RecoveryInv(RunSeed(db, p, organisation, currency, creditLimit, now), Some(now))
  {
    SeedIsTimely(organisation, currency, creditLimit, now);
    LaterKeepsRecovery(db, clock, now);
  }

  lemma DetectReadFindsNothing(db: Db, clock: Option<Time>)
    requires RecoveryInv(db, clock)
    ensures Step(db, DetectRead) == db
  {
  }

  lemma AssignKeepsRecovery(db: Db, p: string, invoiceId: string, reference: string, clock: Option<Time>)
    requires RecoveryInv(db, clock)
    ensures RecoveryInv(RunAssign(db, p, invoiceId, reference), clock)
  {
  }

  /** Detection finds nothing to read and therefore nothing to write. */
  lemma JobKeepsRecovery(db: Db, op: Op, clock: Option<Time>)
    requires RecoveryInv(db, clock) && db.drifted == {} && IsJob(op) && TimeOf(op).None? && !op.LosePositions?
    ensures RecoveryInv(Step(db, op), clock)
  {
    match op
    case DetectRead => DetectReadFindsNothing(db, clock);
    case AssignReference(p, invoiceId, reference) => AssignKeepsRecovery(db, p, invoiceId, reference, clock);
    case _ =>
  }

  lemma StepKeepsRecovery(db: Db, op: Op, clock: Option<Time>)
    requires RecoveryInv(db, clock) && db.drifted == {} && !op.LosePositions?
    requires NotBefore(clock, TimeOf(op)) && InOrder(db, op)
    ensures RecoveryInv(Step(db, op), ClockAfter(clock, op))
  {
    match op
    case Request(c, rate, now) => RequestKeepsRecovery(db, c, rate, now, clock);
    case DeliverEvent(e, at, now) => EventKeepsRecovery(db, e, at, now, clock);
    case DeliverSnapshot(s, at, now, basisPoints) => SnapshotKeepsRecovery(db, s, at, now, basisPoints, clock);
    case Seed(p, organisation, currency, creditLimit, now) =>
      SeedKeepsRecovery(db, p, organisation, currency, creditLimit, now, clock);
    case _ => JobKeepsRecovery(db, op, clock);
  }

  lemma {:induction false} OrderlyRunsAreTimely(ops: seq<Op>)
    requires Orderly(ops)
    ensures Inv(Run(EMPTY, ops)) && RecoveryInv(Run(EMPTY, ops), Clock(ops))
  {
    if ops != [] {
      var before, op := ops[..|ops| - 1], ops[|ops| - 1];
      OrderlyRunsAreTimely(before);
      StepKeepsInv(Run(EMPTY, before), op);
      StepKeepsRecovery(Run(EMPTY, before), op, Clock(before));
    }
  }

  // ---------- The two promises ----------

  /** In an orderly run detection never finds a program to flag, so none is ever unverified. */
  lemma {:induction false} NoFalseAlarm(ops: seq<Op>, p: string)
    requires Orderly(ops) && p in Run(EMPTY, ops).accounts
    ensures !Unverifiable(Run(EMPTY, ops).accounts[p])
    ensures Run(EMPTY, ops).accounts[p].program.position.positionVerified
    ensures Run(EMPTY, ops).suspects == {}
  {
    OrderlyRunsAreTimely(ops);
  }

  // ---------- What detection looks for ----------

  /** An entry of the treasury stream that is newer than every stream position. */
  predicate Uncovered(row: LedgerRow, positions: seq<StreamRow>) {
    && row.entry.actor == "treasury" && row.entry.cause in {TreasuryEvent, LimitChange, ReconciliationAdjustment}
    && forall j :: 0 <= j < |positions| ==> positions[j].updatedAt < row.occurredAt
  }

  lemma PositionAtIsMax(rows: seq<StreamRow>, t: Time)
    ensures (PositionAt(rows).None? || PositionAt(rows).value < t) <==> forall j :: 0 <= j < |rows| ==> rows[j].updatedAt < t
  {
    if rows != [] { PositionAtIsMax(rows[..|rows| - 1], t); }
  }

  lemma UncoveredLast(ledger: seq<LedgerRow>, positions: seq<StreamRow>)
    requires ledger != []
    ensures var n := |ledger| - 1;
      (exists k :: 0 <= k < |ledger| && Uncovered(ledger[k], positions))
        <==> Uncovered(ledger[n], positions) || exists k :: 0 <= k < n && Uncovered(ledger[..n][k], positions)
  {
    hide Uncovered;
    assert forall k :: 0 <= k < |ledger| - 1 ==> ledger[..|ledger| - 1][k] == ledger[k];
  }

  lemma LedgerAtIsNewer(ledger: seq<LedgerRow>, positions: seq<StreamRow>)
    ensures (LedgerAt(ledger).Some? && !(PositionAt(positions).Some? && PositionAt(positions).value >= LedgerAt(ledger).value))
      <==> exists k :: 0 <= k < |ledger| && Uncovered(ledger[k], positions)
  {
    if ledger != [] {
      var n := |ledger| - 1;
      LedgerAtIsNewer(ledger[..n], positions);
      PositionAtIsMax(positions, ledger[n].occurredAt);
      UncoveredLast(ledger, positions);
      hide PositionAt;
    }
  }

  /**
   * Detection flags an account exactly when it is verified and its ledger holds an entry of the treasury
   * stream that is newer than every one of its stream positions.
   */
  lemma {:induction false} UnverifiableIff(a: Account)
    ensures Unverifiable(a) <==>
      a.program.position.positionVerified && exists k :: 0 <= k < |a.ledger| && Uncovered(a.ledger[k], a.positions)
  {
    LedgerAtIsNewer(a.ledger, a.positions);
  }

  // ---------- A job between its read and its writes ----------

  /** Only a job's own write forgets what its read has found, and no program is ever removed. */
  lemma FindingsStay(db: Db, op: Op, p: string)
    ensures p in db.suspects && op != DetectWrite(p) ==> p in Step(db, op).suspects
    ensures p in db.drifted && op != DriftWrite(p) ==> p in Step(db, op).drifted
    ensures p in db.accounts ==> p in Step(db, op).accounts
  {
    hide WorkOf, EventWork, SnapshotWorkOf, Persist, Unverifiable, Drifted, IsEcho;
  }

  lemma {:induction false} FindingsStayInRuns(db: Db, ops: seq<Op>, p: string)
    requires DetectWrite(p) !in ops && DriftWrite(p) !in ops
    ensures p in db.suspects ==> p in Run(db, ops).suspects
    ensures p in db.drifted ==> p in Run(db, ops).drifted
    ensures p in db.accounts ==> p in Run(db, ops).accounts
  {
    if ops != [] {
      var n := |ops| - 1;
      assert ops[n] in ops && forall op :: op in ops[..n] ==> op in ops;
      FindingsStayInRuns(db, ops[..n], p);
      FindingsStay(Run(db, ops[..n]), ops[n], p);
    }
  }

  /**
   * What a job has read it writes, whatever is committed in between: a program found unverifiable is
   * unverified by the write, even if a snapshot has verified it since, and a program found drifting is
   * marked for investigation.
   */
  lemma {:induction false} FoundIsFlagged(db: Db, ops: seq<Op>, p: string)
    requires p in db.accounts && DetectWrite(p) !in ops && DriftWrite(p) !in ops
    ensures p in db.suspects ==>
      var after := Step(Run(db, ops), DetectWrite(p));
      p in after.accounts && !after.accounts[p].program.position.positionVerified && p !in after.suspects
    ensures p in db.drifted ==>
      var after := Step(Run(db, ops), DriftWrite(p));
      p in after.accounts && after.accounts[p].program.position.investigationRequired && p !in after.drifted
  {
    hide Run;
    FindingsStayInRuns(db, ops, p);
  }

  /**
   * When the position rows of a verified program are lost, the next detection flags it exactly if its
   * ledger holds an entry of the treasury stream: an event, a limit change or a correction by "treasury".
   */
  lemma {:induction false} LossIsDetected(db: Db, p: string)
    requires p in db.accounts && db.accounts[p].program.position.positionVerified && p !in db.suspects
    ensures var after := Step(Step(Step(db, LosePositions(p)), DetectRead), DetectWrite(p));
      var ledger := db.accounts[p].ledger;
      && p in after.accounts
      && (!after.accounts[p].program.position.positionVerified <==>
            exists k :: 0 <= k < |ledger| && ledger[k].entry.actor == "treasury"
              && ledger[k].entry.cause in {TreasuryEvent, LimitChange, ReconciliationAdjustment})
  {
    hide Unverifiable;
    var a := db.accounts[p].(positions := []);
    UnverifiableIff(a);
    assert forall row :: Uncovered(row, []) <==>
      row.entry.actor == "treasury" && row.entry.cause in {TreasuryEvent, LimitChange, ReconciliationAdjustment};
  }
}
