/** The invariant of every reachable database, and what it means over whole runs. */
module Runs {
  import opened Wrappers
  import opened Arithmetic
  import opened Domain
  import opened Policies
  import opened Tables
  import opened Ledger
  import opened Book

  // ---------- The invariant ----------

  predicate UniqueIds(rows: seq<ProcessedRow>) {
    forall i, j :: 0 <= i < j < |rows| ==> rows[i].messageId != rows[j].messageId
  }

  /** No database constraint stands behind this one: only the check under the program lock does. */
  predicate UniqueVersions(rows: seq<ProcessedRow>) {
    forall i, j :: 0 <= i < j < |rows| ==>
      !(rows[i].programId == rows[j].programId && rows[i].kind == rows[j].kind && rows[i].version == rows[j].version)
  }

  predicate IsSnapshotOf(row: ProcessedRow, programId: string) {
    row.programId == programId && row.kind == SnapshotKind
  }

  /** treasury_version is the greatest version among the program's processed snapshots, 0 before the first. */
  predicate NewestVersion(rows: seq<ProcessedRow>, programId: string, version: int) {
    && version >= 0
    && (forall k :: 0 <= k < |rows| && IsSnapshotOf(rows[k], programId) ==> rows[k].version <= version)
    && (version > 0 ==> exists k :: 0 <= k < |rows| && IsSnapshotOf(rows[k], programId) && rows[k].version == version)
  }

  ghost predicate MessagesInv(db: Db) {
    && UniqueIds(db.processed)
    && UniqueVersions(db.processed)
    && (forall k :: 0 <= k < |db.processed| ==> db.processed[k].programId in db.accounts)
    && (forall p :: p in db.accounts ==> NewestVersion(db.processed, p, db.accounts[p].program.treasuryVersion))
  }

  predicate NoPending(requests: map<(string, string), RequestRecord>) {
    forall k :: k in requests ==> !requests[k].state.Pending?
  }

  ghost predicate Inv(db: Db) {
    && (forall p :: p in db.accounts ==> AccountInv(db.accounts[p]))
    && MessagesInv(db)
    && NoPending(db.requests)
    && db.drifted == {}
  }

  // ---------- Every step keeps it ----------

  lemma RequestKeepsInv(db: Db, c: Command, rate: Option<ScaledRate>, now: Time)
    requires Inv(db)
    ensures Inv(RunRequest(db, c, rate, now).0)
  {
    if RunRequest(db, c, rate, now).1.Created? {
      WorkKeepsBook(db.accounts[c.programId], c, rate, now);
      WorkKeepsVersion(db.accounts[c.programId], c, rate, now);
    }
  }

  lemma WorkKeepsVersion(a: Account, c: Command, rate: Option<ScaledRate>, now: Time)
    requires WorkOf(a, c, rate, now).Done?
    ensures var b := WorkOf(a, c, rate, now).account;
      && b.program == a.program.(position := b.program.position, positionChangedAt := now)
      && b.program.position.positionVerified == a.program.position.positionVerified
      && b.program.position.currency == a.program.position.currency
      && b.positions == a.positions
  {
  }

  lemma AppendProcessed(rows: seq<ProcessedRow>, row: ProcessedRow)
    requires UniqueIds(rows) && UniqueVersions(rows)
    requires Find(rows, ById(row.messageId)).None? && Find(rows, ByVersion(row.programId, row.kind, row.version)).None?
    ensures UniqueIds(rows + [row]) && UniqueVersions(rows + [row])
  {
    assert forall k :: 0 <= k < |rows| ==> rows[k] in rows;
    assert forall k :: 0 <= k < |rows| ==> !Matches(rows[k], ById(row.messageId));
    assert forall k :: 0 <= k < |rows| ==> !Matches(rows[k], ByVersion(row.programId, row.kind, row.version));
  }

  lemma NewestAfterAppend(rows: seq<ProcessedRow>, row: ProcessedRow, p: string, version: int)
    requires NewestVersion(rows, p, version)
    requires IsSnapshotOf(row, p) ==> version <= row.version
    ensures NewestVersion(rows + [row], p, if IsSnapshotOf(row, p) then row.version else version)
  {
    var more := rows + [row];
    assert more[|rows|] == row;
    assert forall k :: 0 <= k < |rows| ==> more[k] == rows[k];
    if !IsSnapshotOf(row, p) && version > 0 {
      var k :| 0 <= k < |rows| && IsSnapshotOf(rows[k], p) && rows[k].version == version;
      assert IsSnapshotOf(more[k], p);
    }
  }

  function Recorded(db: Db, b: Account, row: ProcessedRow): Db {
    db.(accounts := db.accounts[row.programId := b], processed := db.processed + [row])
  }

  /** The row is new under both of the checks, and carries the program's version along if it is a snapshot. */
  predicate IsNew(db: Db, b: Account, row: ProcessedRow) {
    && row.programId in db.accounts
    && Find(db.processed, ById(row.messageId)).None?
    && Find(db.processed, ByVersion(row.programId, row.kind, row.version)).None?
    && var version := db.accounts[row.programId].program.treasuryVersion;
       if row.kind.SnapshotKind? then b.program.treasuryVersion == row.version >= version
       else b.program.treasuryVersion == version
  }

  lemma RecordKeepsMessages(db: Db, b: Account, row: ProcessedRow)
    requires MessagesInv(db) && IsNew(db, b, row)
    ensures MessagesInv(Recorded(db, b, row))
  {
    var after := Recorded(db, b, row);
    AppendProcessed(db.processed, row);
    forall p | p in after.accounts
      ensures NewestVersion(after.processed, p, after.accounts[p].program.treasuryVersion)
    {
      NewestAfterAppend(db.processed, row, p, db.accounts[p].program.treasuryVersion);
    }
  }

  /** Recording a new message together with a sound account keeps the invariant. */
  lemma RecordKeepsInv(db: Db, b: Account, row: ProcessedRow)
    requires Inv(db) && IsNew(db, b, row) && AccountInv(b)
    ensures Inv(Recorded(db, b, row))
  {
    RecordKeepsMessages(db, b, row);
  }

  // ---------- What a message that changes something does ----------

  /** What having applied a snapshot says about the state it was applied in. */
  lemma AppliedShape(db: Db, s: Snapshot, at: Coordinates, now: Time, basisPoints: int) returns (work: SnapshotWork)
    requires RunSnapshot(db, s, at, now, basisPoints).0 != db || RunSnapshot(db, s, at, now, basisPoints).1 == Applied
    ensures RunSnapshot(db, s, at, now, basisPoints).1 == Applied
    ensures s.acknowledgement.Some? && s.programId in db.accounts
    ensures work == SnapshotWorkOf(db.accounts[s.programId], s, s.acknowledgement.value, at, now, basisPoints)
    ensures work.Accepts? && RunSnapshot(db, s, at, now, basisPoints).0 == Recorded(db, work.account, ProcessedSnapshot(s))
    ensures Find(db.processed, ById(s.messageId)).None?
    ensures Find(db.processed, ByVersion(s.programId, SnapshotKind, s.version)).None?
    ensures db.accounts[s.programId].program.treasuryVersion <= s.version
  {
    work := SnapshotWorkOf(db.accounts[s.programId], s, s.acknowledgement.value, at, now, basisPoints);
    ConcludedSnapshot(db, s, db.accounts[s.programId].program.treasuryVersion, work);
  }

  lemma ConcludedSnapshot(db: Db, s: Snapshot, applied: int, work: SnapshotWork)
    requires ConcludeSnapshot(db, s, applied, work).0 != db || ConcludeSnapshot(db, s, applied, work).1 == Applied
    ensures work.Accepts? && ConcludeSnapshot(db, s, applied, work) == (Recorded(db, work.account, ProcessedSnapshot(s)), Applied)
    ensures Find(db.processed, ById(s.messageId)).None? && applied <= s.version
    ensures Find(db.processed, ByVersion(s.programId, SnapshotKind, s.version)).None?
  {
  }

  lemma ConcludedEvent(db: Db, e: CapacityEvent, work: Result<Account, Fault>, echo: bool)
    requires ConcludeEvent(db, e, work, echo).0 != db || ConcludeEvent(db, e, work, echo).1 in {Applied, EchoSuppressed}
    ensures work.Success? && ConcludeEvent(db, e, work, echo).0 == Recorded(db, work.value, ProcessedEvent(e))
    ensures ConcludeEvent(db, e, work, echo).1 == if echo then EchoSuppressed else Applied
    ensures Find(db.processed, ById(e.messageId)).None?
    ensures Find(db.processed, ByVersion(e.programId, EventKind, e.version)).None?
  {
  }

  /** What having taken an event into account says about the state it was applied in. */
  lemma AppliedEventShape(db: Db, e: CapacityEvent, at: Coordinates, now: Time) returns (b: Account)
    requires RunEvent(db, e, at, now).0 != db || RunEvent(db, e, at, now).1 in {Applied, EchoSuppressed}
    ensures e.programId in db.accounts && EventWork(db.accounts[e.programId], e, at, now) == Success(b)
    ensures RunEvent(db, e, at, now).0 == Recorded(db, b, ProcessedEvent(e))
    ensures RunEvent(db, e, at, now).1 in {Applied, EchoSuppressed}
    ensures Find(db.processed, ById(e.messageId)).None?
    ensures Find(db.processed, ByVersion(e.programId, EventKind, e.version)).None?
  {
    var a := db.accounts[e.programId];
    ConcludedEvent(db, e, EventWork(a, e, at, now), IsEcho(a.reservations, e));
    b := EventWork(a, e, at, now).value;
  }

  lemma EventKeepsVersion(a: Account, e: CapacityEvent, at: Coordinates, now: Time)
    requires EventWork(a, e, at, now).Success?
    ensures EventWork(a, e, at, now).value.program.treasuryVersion == a.program.treasuryVersion
  {
  }

  lemma EventKeepsInv(db: Db, e: CapacityEvent, at: Coordinates, now: Time)
    requires Inv(db)
    ensures Inv(RunEvent(db, e, at, now).0)
  {
    if RunEvent(db, e, at, now).0 != db {
      var b := AppliedEventShape(db, e, at, now);
      EventKeepsBook(db.accounts[e.programId], e, at, now);
      EventKeepsVersion(db.accounts[e.programId], e, at, now);
      RecordKeepsInv(db, b, ProcessedEvent(e));
    }
  }

  lemma SnapshotSetsVersion(a: Account, s: Snapshot, marker: Marker, at: Coordinates, now: Time, basisPoints: int)
    requires SnapshotWorkOf(a, s, marker, at, now, basisPoints).Accepts?
    ensures SnapshotWorkOf(a, s, marker, at, now, basisPoints).account.program.treasuryVersion == s.version
  {
  }

  lemma ConcludeSnapshotKeepsInv(db: Db, s: Snapshot, work: SnapshotWork)
    requires Inv(db) && s.programId in db.accounts && !work.Breaks?
    requires work.Accepts? ==> AccountInv(work.account) && work.account.program.treasuryVersion == s.version
    ensures Inv(ConcludeSnapshot(db, s, db.accounts[s.programId].program.treasuryVersion, work).0)
    ensures !ConcludeSnapshot(db, s, db.accounts[s.programId].program.treasuryVersion, work).1.ApplyFaulted?
  {
    if ConcludeSnapshot(db, s, db.accounts[s.programId].program.treasuryVersion, work).1 == Applied {
      RecordKeepsInv(db, work.account, ProcessedSnapshot(s));
    }
  }

  lemma SnapshotKeepsInv(db: Db, s: Snapshot, at: Coordinates, now: Time, basisPoints: int)
    requires Inv(db) && Parsed(s)
    ensures Inv(RunSnapshot(db, s, at, now, basisPoints).0)
    ensures !RunSnapshot(db, s, at, now, basisPoints).1.ApplyFaulted?
  {
    if s.acknowledgement.Some? && s.programId in db.accounts {
      var a := db.accounts[s.programId];
      var work := SnapshotWorkOf(a, s, s.acknowledgement.value, at, now, basisPoints);
      SnapshotKeepsBook(a, s, s.acknowledgement.value, at, now, basisPoints);
      if work.Accepts? { SnapshotSetsVersion(a, s, s.acknowledgement.value, at, now, basisPoints); }
      ConcludeSnapshotKeepsInv(db, s, work);
    }
  }

  lemma SeedKeepsInv(db: Db, p: string, organisation: string, currency: string, creditLimit: int, now: Time)
    requires Inv(db)
    ensures Inv(RunSeed(db, p, organisation, currency, creditLimit, now))
  {
    var entry := PendingEntry(creditLimit, Limit, LimitChange, None, "seed", "seed-limit-change");
    var a := NewProgram(organisation, currency, now);
    var after := RunSeed(db, p, organisation, currency, creditLimit, now);
    if p !in db.accounts && Persist(a, [entry], now, false).Success? {
      PersistKeepsLedger(a, [entry], now, false);
      OneEntry(entry);
    }
  }

  lemma AssignKeepsInv(db: Db, p: string, invoiceId: string, reference: string)
    requires Inv(db)
    ensures Inv(RunAssign(db, p, invoiceId, reference))
  {
    if p in db.accounts && Locate(db.accounts[p].reservations, invoiceId) < |db.accounts[p].reservations| {
      var b := RunAssign(db, p, invoiceId, reference).accounts[p];
      SameMoneyKeepsBook(db.accounts[p], b);
      AccountKeepsInv(db, p, b);
    }
  }

  predicate IsJob(op: Op) {
    !op.Request? && !op.DeliverEvent? && !op.DeliverSnapshot?
  }

  lemma DriftReadFindsNothing(db: Db)
    requires Inv(db)
    ensures Step(db, DriftRead).drifted == {}
  {
    forall p | p in db.accounts ensures !Drifted(db.accounts[p]) { LocalIsEverySum(db.accounts[p]); }
  }

  /** Replacing an account by one in good order, at the same version, keeps the invariant. */
  lemma AccountKeepsInv(db: Db, p: string, b: Account)
    requires Inv(db) && p in db.accounts && AccountInv(b)
    requires b.program.treasuryVersion == db.accounts[p].program.treasuryVersion
    ensures Inv(db.(accounts := db.accounts[p := b]))
  {
    hide AccountInv, UniqueIds, UniqueVersions, NewestVersion;
  }

  lemma DetectWriteKeepsInv(db: Db, p: string)
    requires Inv(db)
    ensures Inv(Step(db, DetectWrite(p)))
  {
    if p in db.suspects && p in db.accounts {
      var b := Flag(db, p, false, false).accounts[p];
      SameMoneyKeepsBook(db.accounts[p], b);
      AccountKeepsInv(db, p, b);
    }
  }

  lemma LosePositionsKeepsInv(db: Db, p: string)
    requires Inv(db) && p in db.accounts
    ensures Inv(Step(db, LosePositions(p)))
  {
    var b := db.accounts[p].(positions := []);
    SameMoneyKeepsBook(db.accounts[p], b);
    AccountKeepsInv(db, p, b);
  }

  lemma SweepKeepsInv(db: Db, cutoff: Time)
    requires Inv(db)
    ensures Inv(Step(db, Sweep(cutoff)))
  {
    hide AccountInv, UniqueIds, UniqueVersions, NewestVersion;
  }

  lemma JobKeepsInv(db: Db, op: Op)
    requires Inv(db) && IsJob(op)
    ensures Inv(Step(db, op))
  {
    hide AccountInv, UniqueIds, UniqueVersions, NewestVersion, NoPending, RunSweep, Flag, RunSeed, RunAssign, Unverifiable, Drifted;
    match op
    case Sweep(cutoff) => SweepKeepsInv(db, cutoff);
    case DetectWrite(p) => DetectWriteKeepsInv(db, p);
    case LosePositions(p) => if p in db.accounts { LosePositionsKeepsInv(db, p); }
    case DriftRead => DriftReadFindsNothing(db);
    case Seed(p, organisation, currency, creditLimit, now) => SeedKeepsInv(db, p, organisation, currency, creditLimit, now);
    case AssignReference(p, invoiceId, reference) => AssignKeepsInv(db, p, invoiceId, reference);
    case _ =>
  }

  lemma StepKeepsInv(db: Db, op: Op)
    requires Inv(db) && WellFormed(op)
    ensures Inv(Step(db, op))
  {
    match op
    case Request(c, rate, now) => RequestKeepsInv(db, c, rate, now);
    case DeliverEvent(e, at, now) => EventKeepsInv(db, e, at, now);
    case DeliverSnapshot(s, at, now, basisPoints) => SnapshotKeepsInv(db, s, at, now, basisPoints);
    case _ => JobKeepsInv(db, op);
  }

  predicate AllWellFormed(ops: seq<Op>) {
    forall k :: 0 <= k < |ops| ==> WellFormed(ops[k])
  }

  /** Every database that any run reaches from the empty one satisfies the invariant. */
  lemma {:induction false} EveryRunKeepsInv(ops: seq<Op>)
    requires AllWellFormed(ops)
    ensures Inv(Run(EMPTY, ops))
  {
    if ops != [] {
      EveryRunKeepsInv(ops[..|ops| - 1]);
      StepKeepsInv(Run(EMPTY, ops[..|ops| - 1]), ops[|ops| - 1]);
    }
  }
}
