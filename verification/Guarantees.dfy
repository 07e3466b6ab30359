/** What the service promises over every run, stated for its readers. */
module Guarantees {
  import opened Wrappers
  import opened Arithmetic
  import opened Domain
  import opened Policies
  import opened Tables
  import opened Ledger
  import opened Book
  import opened Runs
  import opened Evolution

  // ---------- The ledger and the caches ----------

  /**
   * In every run each cached component is the sum of its ledger entries, the sequence runs
   * 1, 2, ... without a gap, the mark is set exactly while the total exceeds the limit, and the
   * markers read ONSET, CLEARED, ONSET, ...
   */
  lemma {:induction false} LedgerReplays(ops: seq<Op>, p: string)
    requires AllWellFormed(ops) && p in Run(EMPTY, ops).accounts
    ensures var a := Run(EMPTY, ops).accounts[p];
      var q, es, m := a.program.position, Entries(a.ledger), Markers(Entries(a.ledger));
      && q.localReserved == Delta(es, Local) && q.treasuryReserved == Delta(es, Treasury) && q.creditLimit == Delta(es, Limit)
      && q.nextSequence == |a.ledger| + 1 && (forall k :: 0 <= k < |a.ledger| ==> a.ledger[k].sequence == k + 1)
      && (q.overLimitSince.Some? <==> IsOverLimit(q))
      && (q.overLimitSince.Some? <==> |m| % 2 == 1)
      && (forall k :: 0 <= k < |m| ==> m[k] == if k % 2 == 0 then OverLimitOnset else OverLimitCleared)
  {
    EveryRunKeepsInv(ops);
    MarkersAlternate(Entries(Run(EMPTY, ops).accounts[p].ledger));
  }

  /** LOCAL is the outstanding of all reservations and of the open ones alike, so nothing ever finds a drift. */
  lemma CacheNeverDrifts(ops: seq<Op>, p: string)
    requires AllWellFormed(ops) && p in Run(EMPTY, ops).accounts
    ensures var a := Run(EMPTY, ops).accounts[p];
      && a.program.position.localReserved == Outstanding(a.reservations, Any)
      && a.program.position.localReserved == Outstanding(a.reservations, OpenLocal)
      && !Drifted(a) && !a.program.position.investigationRequired
    ensures Run(EMPTY, ops).drifted == {}
  {
    EveryRunKeepsInv(ops);
    LocalIsEverySum(Run(EMPTY, ops).accounts[p]);
  }

  /** In every run an accepted snapshot finds nothing to correct in LOCAL and realises the additive rule. */
  lemma {:induction false} SnapshotsAreAdditive(ops: seq<Op>, s: Snapshot, at: Coordinates, now: Time, basisPoints: int)
    requires AllWellFormed(ops) && Parsed(s)
    requires RunSnapshot(Run(EMPTY, ops), s, at, now, basisPoints).1 == Applied
    ensures Realises(Run(EMPTY, ops).accounts[s.programId],
                     RunSnapshot(Run(EMPTY, ops), s, at, now, basisPoints).0.accounts[s.programId], s, basisPoints)
  {
    EveryRunKeepsInv(ops);
    var work := AppliedShape(Run(EMPTY, ops), s, at, now, basisPoints);
    AcceptedSnapshot(Run(EMPTY, ops).accounts[s.programId], s, s.acknowledgement.value, at, now, basisPoints);
  }

  /**
   * In every run the LOCAL entries naming an invoice sum to what it still reserves: its converted
   * outstanding invoice until it is cancelled or written off, and exactly zero once it is closed.
   */
  lemma {:induction false} InvoicesConserve(ops: seq<Op>, p: string, invoiceId: string)
    requires AllWellFormed(ops) && p in Run(EMPTY, ops).accounts
    ensures var a := Run(EMPTY, ops).accounts[p];
      var i, named := Locate(a.reservations, invoiceId), NamedDelta(Entries(a.ledger), invoiceId);
      && (i == |a.reservations| ==> named == 0)
      && (i < |a.reservations| ==>
            var r := a.reservations[i];
            && r.invoiceId == invoiceId && named == r.outstandingReserved
            && (Terminal(r.status) <==> named == 0)
            && (!(r.status.Cancelled? || r.status.WrittenOff?) ==>
                  named == AtRate(r.outstandingInvoice, RateOf(r))
                  && var rate := if r.fxRate.Some? then r.fxRate.value else 10_000_000_000;
                     IsNearest(r.outstandingInvoice * rate, 10_000_000_000, named)))
  {
    EveryRunKeepsInv(ops);
    var a := Run(EMPTY, ops).accounts[p];
    assert NamedDelta(Entries(a.ledger), invoiceId) == OutstandingOf(a.reservations, invoiceId);
    var i := Locate(a.reservations, invoiceId);
    if i < |a.reservations| {
      var r := a.reservations[i];
      AtRateIsNearest(r.outstandingInvoice, RateOf(r), NamedDelta(Entries(a.ledger), invoiceId));
    }
  }

  /**
   * In every run a reservation is within its bounds: something was reserved for something, no more is
   * outstanding than that, a rate is recorded exactly for another currency, it is acknowledged exactly if a
   * version says so, and it holds something exactly while it is open.
   */
  lemma ReservationsAreInOrder(ops: seq<Op>, p: string, k: nat)
    requires AllWellFormed(ops) && p in Run(EMPTY, ops).accounts && k < |Run(EMPTY, ops).accounts[p].reservations|
    ensures var r := Run(EMPTY, ops).accounts[p].reservations[k];
      && 0 < r.invoiceAmount <= 9223372036854775807 && 0 <= r.outstandingInvoice <= r.invoiceAmount
      && 0 < r.reserved <= 9223372036854775807 && 0 <= r.outstandingReserved <= r.reserved
      && (r.fxRate.None? <==> r.invoiceCurrency == r.programCurrency) && (r.fxRate.Some? ==> r.fxRate.value > 0)
      && (r.acknowledged <==> r.acknowledgedByVersion.Some?)
      && (r.outstandingReserved > 0 <==> r.status == Active || r.status == PartiallyReleased)
      && (forall j :: 0 <= j < |Run(EMPTY, ops).accounts[p].reservations| && j != k ==>
            Run(EMPTY, ops).accounts[p].reservations[j].invoiceId != r.invoiceId)
  {
    EveryRunKeepsInv(ops);
    var rows := Run(EMPTY, ops).accounts[p].reservations;
    assert AccountInv(Run(EMPTY, ops).accounts[p]) && Sound(rows[k]);
  }

  // ---------- No stranding ----------

  predicate ReleasesAll(c: Command, r: ReservationRow) {
    c.invoiceId == r.invoiceId && c.action == ReleaseAction(r.outstandingInvoice, r.invoiceCurrency)
  }

  lemma FullReleaseWorks(a: Account, c: Command, i: nat, now: Time)
    requires AccountInv(a) && a.program.position.positionVerified
    requires i < |a.reservations| && !Terminal(a.reservations[i].status) && ReleasesAll(c, a.reservations[i])
    ensures var r := a.reservations[i];
      var closed := r.(outstandingInvoice := 0, outstandingReserved := 0, status := FullyReleased, updatedAt := now);
      var w := ReleaseWork(a, c, r.outstandingInvoice, r.invoiceCurrency, now);
      && w.Done? && w.body.reservation == closed && w.account.reservations == a.reservations[i := closed]
      && w.account.program.position.localReserved == a.program.position.localReserved - r.outstandingReserved
  {
    var r := a.reservations[i];
    var d := ReleaseDecision(r.outstandingReserved, 0, 0, FullyReleased);
    var entry, row := LocalEntry(c, -d.delta, Release), Released(r, d).(updatedAt := now);
    LocateIs(a.reservations, c.invoiceId, i);
    FullReleaseCloses(r);
    ReleaseKeepsSound(r, r.outstandingInvoice, r.invoiceCurrency);
    SettleSucceeds(a, i, row, entry, now);
    assert ReleaseWork(a, c, r.outstandingInvoice, r.invoiceCurrency, now) == Settle(a, i, row, entry, now);
    OneEntry(entry);
  }

  /**
   * In every run an open reservation of a verified program can be closed: a new request to release its
   * whole outstanding invoice is carried out, and returns all it still reserved to LOCAL.
   */
  lemma {:induction false} NothingIsStranded(ops: seq<Op>, c: Command, i: nat, now: Time)
    requires AllWellFormed(ops) && c.programId in Run(EMPTY, ops).accounts && KeyOf(c) !in Run(EMPTY, ops).requests
    requires var a := Run(EMPTY, ops).accounts[c.programId];
      && a.program.position.positionVerified
      && i < |a.reservations| && !Terminal(a.reservations[i].status) && ReleasesAll(c, a.reservations[i])
    ensures var db := Run(EMPTY, ops);
      var a, r := db.accounts[c.programId], db.accounts[c.programId].reservations[i];
      var (after, answer) := RunRequest(db, c, None, now);
      && r.outstandingReserved > 0 && answer.Created? && answer.body.reservation.status == FullyReleased
      && after.accounts[c.programId].reservations[i].outstandingReserved == 0
      && after.accounts[c.programId].program.position.localReserved == a.program.position.localReserved - r.outstandingReserved
  {
    EveryRunKeepsInv(ops);
    FullReleaseWorks(Run(EMPTY, ops).accounts[c.programId], c, i, now);
  }

  // ---------- No overbooking ----------

  /** The amounts that request validation lets through. */
  predicate Validated(c: Command) {
    match c.action
    case ReserveAction(amount, _) => 0 < amount <= INT64_MAX
    case ReleaseAction(amount, _) => 0 < amount <= INT64_MAX
    case CancelAction(_, _) => true
  }

  predicate NoOnset(rows: seq<LedgerRow>) {
    forall k :: 0 <= k < |rows| ==> !rows[k].entry.cause.OverLimitOnset?
  }

  /** A single LOCAL entry that does not push the total over the limit appends no onset. */
  lemma NoOnsetAppended(a: Account, entry: PendingEntry, now: Time)
    requires LedgerInv(a) && !IsMarker(entry) && Persist(a, [entry], now, false).Success?
    requires IsOverLimit(Persist(a, [entry], now, false).value.program.position) ==> IsOverLimit(a.program.position)
    ensures NoOnset(Persist(a, [entry], now, false).value.ledger[|a.ledger|..])
  {
  }

  lemma WorkNeverOverbooks(a: Account, c: Command, rate: Option<ScaledRate>, now: Time)
    requires AccountInv(a) && Validated(c)
    ensures !WorkOf(a, c, rate, now).Fails?
    ensures WorkOf(a, c, rate, now).Done? ==>
      IsOverLimit(WorkOf(a, c, rate, now).account.program.position) ==> IsOverLimit(a.program.position)
  {
    match c.action
    case ReserveAction(amount, currency) => ReserveSucceeds(a, c, amount, currency, rate, now);
    case ReleaseAction(amount, currency) => ReleaseKeepsBook(a, c, amount, currency, now);
    case CancelAction(_, _) => CancelKeepsBook(a, c, now);
  }

  lemma WorkAppendsNoOnset(a: Account, c: Command, rate: Option<ScaledRate>, now: Time)
    requires AccountInv(a) && Validated(c) && WorkOf(a, c, rate, now).Done?
    ensures NoOnset(WorkOf(a, c, rate, now).account.ledger[|a.ledger|..])
  {
    WorkNeverOverbooks(a, c, rate, now);
    var p := a.program.position;
    match c.action
    case ReserveAction(amount, currency) =>
      var d := DecideReservation(p, amount, Resolve(currency, p.currency, rate)).value;
      var row := NewReservation(c, amount, currency, p.currency, d, now);
      NoOnsetAppended(a.(reservations := a.reservations + [row]), LocalEntry(c, d.reserved, Reservation), now);
    case ReleaseAction(amount, currency) =>
      var i, d := ReleaseShape(a, c, amount, currency, now);
      NoOnsetAppended(a, LocalEntry(c, -d.delta, Release), now);
    case CancelAction(_, _) =>
      var i, d := CancelShape(a, c, now);
      NoOnsetAppended(a, LocalEntry(c, -d.delta, d.cause), now);
  }

  /**
   * In every run a validated request never trips a CHECK, the trigger or a 64-bit column; if it is
   * carried out it does not take the program over its limit and records no onset.
   */
  lemma {:induction false} RequestsNeverOverbook(ops: seq<Op>, c: Command, rate: Option<ScaledRate>, now: Time)
    requires AllWellFormed(ops) && Validated(c) && c.programId in Run(EMPTY, ops).accounts
    ensures var db := Run(EMPTY, ops);
      var a, b := db.accounts[c.programId], RunRequest(db, c, rate, now).0.accounts[c.programId];
      && !RunRequest(db, c, rate, now).1.Faulted?
      && (IsOverLimit(b.program.position) ==> IsOverLimit(a.program.position))
      && a.ledger <= b.ledger && NoOnset(b.ledger[|a.ledger|..])
      && (c.action.ReserveAction? && RunRequest(db, c, rate, now).1.Created? ==>
            !IsOverLimit(a.program.position) && !IsOverLimit(b.program.position))
  {
    EveryRunKeepsInv(ops);
    var a := Run(EMPTY, ops).accounts[c.programId];
    WorkNeverOverbooks(a, c, rate, now);
    RequestEvolves(Run(EMPTY, ops), c, rate, now);
    if WorkOf(a, c, rate, now).Done? {
      WorkAppendsNoOnset(a, c, rate, now);
      if c.action.ReserveAction? { ReserveSucceeds(a, c, c.action.amount, c.action.currency, rate, now); }
    }
  }

  /** In every run a parsed snapshot never trips a CHECK, the trigger or a 64-bit column. */
  lemma {:induction false} SnapshotsNeverFault(ops: seq<Op>, s: Snapshot, at: Coordinates, now: Time, basisPoints: int)
    requires AllWellFormed(ops) && Parsed(s)
    ensures !RunSnapshot(Run(EMPTY, ops), s, at, now, basisPoints).1.ApplyFaulted?
  {
    EveryRunKeepsInv(ops);
    SnapshotKeepsInv(Run(EMPTY, ops), s, at, now, basisPoints);
  }

  // ---------- Idempotency keys ----------

  /** A request that is not carried out changes nothing, its key included. */
  lemma OnlyCreatedChanges(db: Db, c: Command, rate: Option<ScaledRate>, now: Time)
    ensures RunRequest(db, c, rate, now).1.Created? || RunRequest(db, c, rate, now).0 == db
  {
  }

  lemma ConcludeAnswersKnownKey(db: Db, d: Command, work: Work, now: Time, r: RequestRecord)
    requires KeyOf(d) in db.requests && db.requests[KeyOf(d)] == r && !r.state.Pending?
    ensures Conclude(db, d, work, now).0 == db
    ensures Conclude(db, d, work, now).1 ==
      if OperationOf(d) != r.operation || Fingerprint(d) != r.fingerprint then Refused(IdempotencyConflict)
      else if r.state.Expired? then Refused(IdempotencyExpired)
      else Replayed(r.state.outcome)
  {
  }

  lemma CreatedRecords(db: Db, c: Command, rate: Option<ScaledRate>, now: Time)
    requires RunRequest(db, c, rate, now).1.Created?
    ensures KeyOf(c) in RunRequest(db, c, rate, now).0.requests
    ensures RunRequest(db, c, rate, now).0.requests[KeyOf(c)]
      == RequestRecord(OperationOf(c), Fingerprint(c), Complete(RunRequest(db, c, rate, now).1.body), now)
  {
  }

  /** The record kept for a request: that of its first and only effect, possibly expired since. */
  lemma RecordIsKept(db: Db, c: Command, rate: Option<ScaledRate>, now: Time, ops: seq<Op>) returns (r: RequestRecord)
    requires Inv(db) && AllWellFormed(ops) && RunRequest(db, c, rate, now).1.Created?
    ensures var then_ := Run(RunRequest(db, c, rate, now).0, ops);
      KeyOf(c) in then_.requests && r == then_.requests[KeyOf(c)]
    ensures r.operation == OperationOf(c) && r.fingerprint == Fingerprint(c)
    ensures r.state == Expired || r.state == Complete(RunRequest(db, c, rate, now).1.body)
  {
    var first := RunRequest(db, c, rate, now).0;
    RequestKeepsInv(db, c, rate, now);
    CreatedRecords(db, c, rate, now);
    RunEvolves(first, ops);
    r := Run(first, ops).requests[KeyOf(c)];
    assert RecordEvolves(first.requests[KeyOf(c)], r);
  }

  /**
   * Once a key has had its effect, then after any run of requests, messages, sweeps and jobs every
   * request with that key changes nothing; it is answered with the first outcome exactly when it
   * is the same request and the record has not expired.
   */
  lemma {:induction false} OneEffectPerKey(db: Db, c: Command, rate: Option<ScaledRate>, now: Time, ops: seq<Op>,
                        d: Command, rate2: Option<ScaledRate>, later: Time)
    requires Inv(db) && AllWellFormed(ops)
    requires RunRequest(db, c, rate, now).1.Created? && KeyOf(d) == KeyOf(c)
    ensures var then_ := Run(RunRequest(db, c, rate, now).0, ops);
      var (after, answer) := RunRequest(then_, d, rate2, later);
      && after == then_ && KeyOf(c) in then_.requests
      && answer ==
        if d.programId !in then_.accounts then Faulted(ProgramNotFound)
        else if OperationOf(d) != OperationOf(c) || Fingerprint(d) != Fingerprint(c) then Refused(IdempotencyConflict)
        else if then_.requests[KeyOf(c)].state.Expired? then Refused(IdempotencyExpired)
        else Replayed(RunRequest(db, c, rate, now).1.body)
  {
    var r := RecordIsKept(db, c, rate, now, ops);
    var then_ := Run(RunRequest(db, c, rate, now).0, ops);
    if d.programId in then_.accounts {
      ConcludeAnswersKnownKey(then_, d, WorkOf(then_.accounts[d.programId], d, rate2, later), later, r);
    }
  }

  /** In every run no committed record is PENDING, so no request is ever told it is in flight. */
  lemma {:induction false} NeverInFlight(ops: seq<Op>, c: Command, rate: Option<ScaledRate>, now: Time)
    requires AllWellFormed(ops)
    ensures NoPending(Run(EMPTY, ops).requests)
    ensures RunRequest(Run(EMPTY, ops), c, rate, now).1 != Refused(RequestInFlight)
  {
    EveryRunKeepsInv(ops);
    var db := Run(EMPTY, ops);
    if c.programId in db.accounts {
      WorkIsNotInFlight(db.accounts[c.programId], c, rate, now);
    }
  }

  lemma WorkIsNotInFlight(a: Account, c: Command, rate: Option<ScaledRate>, now: Time)
    ensures WorkOf(a, c, rate, now) != Refuses(RequestInFlight)
  {
  }

  // ---------- Versions ----------

  /** Applied snapshots of a program carry strictly increasing versions, whatever ran in between. */
  lemma {:induction false} AppliedVersionsIncrease(db: Db, s: Snapshot, at: Coordinates, now: Time, basisPoints: int, ops: seq<Op>,
                                t: Snapshot, at2: Coordinates, later: Time)
    requires Inv(db) && Parsed(s) && AllWellFormed(ops) && s.programId == t.programId
    requires RunSnapshot(db, s, at, now, basisPoints).1 == Applied
    requires RunSnapshot(Run(RunSnapshot(db, s, at, now, basisPoints).0, ops), t, at2, later, basisPoints).1 == Applied
    ensures s.version < t.version
  {
    var first := RunSnapshot(db, s, at, now, basisPoints).0;
    var k := |db.processed|;
    SnapshotKeepsInv(db, s, at, now, basisPoints);
    var work := AppliedShape(db, s, at, now, basisPoints);
    ProcessedIsKept(first, ops, k);
    var work2 := AppliedShape(Run(first, ops), t, at2, later, basisPoints);
    AppliedIsNewer(Run(first, ops), k, t);
  }

  lemma ProcessedIsKept(db: Db, ops: seq<Op>, k: nat)
    requires Inv(db) && AllWellFormed(ops) && k < |db.processed|
    ensures MessagesInv(Run(db, ops)) && k < |Run(db, ops).processed| && Run(db, ops).processed[k] == db.processed[k]
  {
    RunEvolves(db, ops);
  }

  /** A snapshot that is new and not older than the applied version is newer than every recorded one. */
  lemma AppliedIsNewer(db: Db, k: nat, t: Snapshot)
    requires MessagesInv(db) && k < |db.processed| && IsSnapshotOf(db.processed[k], t.programId) && t.programId in db.accounts
    requires Find(db.processed, ByVersion(t.programId, SnapshotKind, t.version)).None?
    requires db.accounts[t.programId].program.treasuryVersion <= t.version
    ensures db.processed[k].version < t.version
  {
    assert db.processed[k] in db.processed;
    assert !Matches(db.processed[k], ByVersion(t.programId, SnapshotKind, t.version));
  }

  /**
   * In every run a (program, kind, version) has at most one processed row, although no constraint
   * says so, and treasury_version is the newest snapshot applied.
   */
  lemma VersionsAreUnique(ops: seq<Op>, p: string)
    requires AllWellFormed(ops) && p in Run(EMPTY, ops).accounts
    ensures UniqueIds(Run(EMPTY, ops).processed) && UniqueVersions(Run(EMPTY, ops).processed)
    ensures NewestVersion(Run(EMPTY, ops).processed, p, Run(EMPTY, ops).accounts[p].program.treasuryVersion)
  {
    EveryRunKeepsInv(ops);
  }

  /** From any reachable database on, acknowledgements only accumulate and their versions only grow. */
  lemma AcknowledgementsAreKept(ops: seq<Op>, more: seq<Op>, p: string, i: nat)
    requires AllWellFormed(ops) && AllWellFormed(more)
    requires p in Run(EMPTY, ops).accounts && i < |Run(EMPTY, ops).accounts[p].reservations|
    ensures var before, after := Run(EMPTY, ops), Run(EMPTY, ops + more);
      && p in after.accounts && i < |after.accounts[p].reservations|
      && RowEvolves(before.accounts[p].reservations[i], after.accounts[p].reservations[i])
      && before.accounts[p].program.treasuryVersion <= after.accounts[p].program.treasuryVersion
  {
    EveryRunKeepsInv(ops);
    RunEvolves(Run(EMPTY, ops), more);
    RunSplits(EMPTY, ops, more);
  }

  // ---------- The unlocked inspection ----------

  lemma FindPrefix(a: seq<ProcessedRow>, b: seq<ProcessedRow>, q: Query)
    requires a <= b && Find(a, q).Some?
    ensures Find(b, q) == Find(a, q)
  {
  }

  /** Handling an event: the reads of the inspection, then possibly an apply in a later state. */
  function HandleEvent(ids: Db, programs: Db, versions: Db, db: Db, e: CapacityEvent, at: Coordinates, now: Time): Db {
    if InspectEventOver(ids, programs, versions, e).Proceed? then RunEvent(db, e, at, now).0 else db
  }

  function HandleSnapshot(ids: Db, programs: Db, versions: Db, db: Db, s: Snapshot, at: Coordinates, now: Time, basisPoints: int): Db {
    if InspectSnapshotOver(ids, programs, versions, s).Proceed? then RunSnapshot(db, s, at, now, basisPoints).0 else db
  }

  /** What the four reads and writes of a handling see: a state, and what three runs make of it in turn. */
  predicate Successive(start: Db, first: seq<Op>, second: seq<Op>, third: seq<Op>) {
    AllWellFormed(first) && AllWellFormed(second) && AllWellFormed(third)
    && Run(Run(Run(start, first), second), third).accounts.Keys == start.accounts.Keys
  }

  lemma ProgramsAreKept(a: Db, b: Db)
    requires Evolves(a, b)
    ensures a.accounts.Keys <= b.accounts.Keys
  {
  }

  lemma SuccessiveEvolve(start: Db, first: seq<Op>, second: seq<Op>, third: seq<Op>)
    requires Inv(start) && Successive(start, first, second, third)
    ensures var programs := Run(start, first);
      var versions, db := Run(programs, second), Run(Run(programs, second), third);
      && Inv(programs) && Inv(versions) && Evolves(start, db) && Evolves(programs, db) && Evolves(versions, db)
      && programs.accounts.Keys == db.accounts.Keys
  {
    hide Run, Evolves, Inv;
    var programs := Run(start, first);
    var versions := Run(programs, second);
    RunEvolves(start, first);
    RunEvolves(programs, second);
    RunEvolves(versions, third);
    EvolvesTransitive(programs, versions, Run(versions, third));
    EvolvesTransitive(start, programs, Run(versions, third));
    ProgramsAreKept(start, programs);
    ProgramsAreKept(programs, Run(versions, third));
  }

  /** What a row that justified an inspection's answer does to a later apply: nothing is written. */
  lemma KnownEventWritesNothing(db: Db, e: CapacityEvent, work: Result<Account, Fault>, echo: bool)
    requires Find(db.processed, ById(e.messageId)).Some?
      || Find(db.processed, ByVersion(e.programId, EventKind, e.version)).Some?
    ensures ConcludeEvent(db, e, work, echo).0 == db
  {
  }

  lemma KnownSnapshotWritesNothing(db: Db, s: Snapshot, applied: int, work: SnapshotWork)
    requires Find(db.processed, ById(s.messageId)).Some?
      || Find(db.processed, ByVersion(s.programId, SnapshotKind, s.version)).Some?
      || s.version < applied
    ensures ConcludeSnapshot(db, s, applied, work).0 == db
  {
  }

  lemma FoundStaysFound(seen: Db, db: Db, q: Query)
    requires Evolves(seen, db)
    ensures Find(seen.processed, q).Some? ==> Find(db.processed, q).Some?
  {
  }

  /**
   * With no program created meanwhile, and whatever is committed between the inspection's own reads and
   * before the apply, handling ends in the database that applying without inspection would give.
   */
  lemma {:induction false} InspectEventIsFastPath(ids: Db, first: seq<Op>, second: seq<Op>, third: seq<Op>,
                                                  e: CapacityEvent, at: Coordinates, now: Time)
    requires Inv(ids) && Successive(ids, first, second, third)
    ensures var programs := Run(ids, first);
      var versions, db := Run(programs, second), Run(Run(programs, second), third);
      HandleEvent(ids, programs, versions, db, e, at, now) == RunEvent(db, e, at, now).0
  {
    var programs := Run(ids, first);
    SuccessiveEvolve(ids, first, second, third);
    EventSkipIsSafe(ids, programs, Run(programs, second), Run(Run(programs, second), third), e, at, now);
  }

  lemma EventSkipIsSafe(ids: Db, programs: Db, versions: Db, db: Db, e: CapacityEvent, at: Coordinates, now: Time)
    requires Evolves(ids, db) && Evolves(programs, db) && Evolves(versions, db) && programs.accounts.Keys == db.accounts.Keys
    ensures HandleEvent(ids, programs, versions, db, e, at, now) == RunEvent(db, e, at, now).0
  {
    FoundStaysFound(ids, db, ById(e.messageId));
    FoundStaysFound(versions, db, ByVersion(e.programId, EventKind, e.version));
    if e.programId in db.accounts && !InspectEventOver(ids, programs, versions, e).Proceed? {
      assert AccountEvolves(programs.accounts[e.programId], db.accounts[e.programId]);
      var a := db.accounts[e.programId];
      if a.program.position.currency == e.currency && FitsInt64(e.version) {
        KnownEventWritesNothing(db, e, EventWork(a, e, at, now), IsEcho(a.reservations, e));
      }
    }
  }

  lemma {:induction false} InspectSnapshotIsFastPath(ids: Db, first: seq<Op>, second: seq<Op>, third: seq<Op>,
                                                     s: Snapshot, at: Coordinates, now: Time, basisPoints: int)
    requires Inv(ids) && Successive(ids, first, second, third)
    ensures var programs := Run(ids, first);
      var versions, db := Run(programs, second), Run(Run(programs, second), third);
      HandleSnapshot(ids, programs, versions, db, s, at, now, basisPoints) == RunSnapshot(db, s, at, now, basisPoints).0
  {
    var programs := Run(ids, first);
    SuccessiveEvolve(ids, first, second, third);
    SnapshotSkipIsSafe(ids, programs, Run(programs, second), Run(Run(programs, second), third), s, at, now, basisPoints);
  }

  lemma SnapshotSkipIsSafe(ids: Db, programs: Db, versions: Db, db: Db, s: Snapshot, at: Coordinates, now: Time, basisPoints: int)
    requires Evolves(ids, db) && Evolves(programs, db) && Evolves(versions, db) && programs.accounts.Keys == db.accounts.Keys
    ensures HandleSnapshot(ids, programs, versions, db, s, at, now, basisPoints) == RunSnapshot(db, s, at, now, basisPoints).0
  {
    FoundStaysFound(ids, db, ById(s.messageId));
    FoundStaysFound(versions, db, ByVersion(s.programId, SnapshotKind, s.version));
    if s.programId in db.accounts && s.acknowledgement.Some? && !InspectSnapshotOver(ids, programs, versions, s).Proceed? {
      assert AccountEvolves(programs.accounts[s.programId], db.accounts[s.programId]);
      var a := db.accounts[s.programId];
      if a.program.position.currency == s.currency {
        KnownSnapshotWritesNothing(db, s, a.program.treasuryVersion,
                                   SnapshotWorkOf(a, s, s.acknowledgement.value, at, now, basisPoints));
      }
    }
  }
}
