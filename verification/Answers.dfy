/**
 * What each request is answered and writes, column by column, for every reachable database: the
 * decision tables of the service, stated on the rows and amounts themselves.
 */
module Answers {
  import opened Wrappers
  import opened Arithmetic
  import opened Domain
  import opened Policies
  import opened Tables
  import opened Ledger
  import opened Book
  import opened Runs
  import opened Evolution
  import opened Guarantees
  import opened Outcomes

  // ---------- One ledger entry ----------

  /** The components after one entry. */
  function Shifted(p: Position, e: PendingEntry): Position {
    match e.component
    case Local => p.(localReserved := p.localReserved + e.delta)
    case Treasury => p.(treasuryReserved := p.treasuryReserved + e.delta)
    case Limit => p.(creditLimit := p.creditLimit + e.delta)
  }

  /** The marker row that follows an entry when the total crosses the limit. */
  function MarkerRow(was: bool, over: bool, correlationId: string, sequence: int, now: Time): seq<LedgerRow> {
    if was == over then []
    else
      [LedgerRow(PendingEntry(0, Limit, if over then OverLimitOnset else OverLimitCleared, None, "system", correlationId),
                 sequence, now)]
  }

  /** An account after one entry: its row under the next number, a marker on crossing, and the position brought up to date. */
  function AfterEntry(a: Account, e: PendingEntry, now: Time): Account {
    var p, q := a.program.position, Shifted(a.program.position, e);
    var over := q.localReserved + q.treasuryReserved > q.creditLimit;
    var ledger := a.ledger + [LedgerRow(e, |a.ledger| + 1, now)]
      + MarkerRow(p.overLimitSince.Some?, over, e.correlationId, |a.ledger| + 2, now);
    a.(ledger := ledger,
       program := a.program.(positionChangedAt := now, position := q.(
         nextSequence := |ledger| + 1,
         overLimitSince := if !over then None else if p.overLimitSince.Some? then p.overLimitSince else Some(now))))
  }

  lemma PersistIs(a: Account, e: PendingEntry, now: Time)
    requires Gapless(a) && Persist(a, [e], now, false).Success?
    ensures Persist(a, [e], now, false).value == AfterEntry(a, e, now)
  {
    OneEntry(e);
    var r := Advance(a.program.position, [e], now);
    var batch := Batch(a.program.position, [e]);
    assert Moved(a.program.position, [e]) == Shifted(a.program.position, e);
    assert batch[0] == e && |batch| <= 2;
    assert Persist(a, [e], now, false).value.ledger == AfterEntry(a, e, now).ledger;
  }

  /**
   * Writing one entry, to any account whose sequence is gapless, is rejected exactly by the columns' range, by
   * the CHECKs, or by the trigger: outside a reconciliation no entry may raise LOCAL past the limit.
   */
  lemma {:induction false} EntryIsRejected(a: Account, e: PendingEntry, now: Time, reconciling: bool)
    requires Gapless(a)
    ensures var q := Shifted(a.program.position, e);
      var r := Persist(a, [e], now, reconciling);
      if !In64Bits(e.delta) || !In64Bits(q.localReserved) || !In64Bits(q.treasuryReserved) || !In64Bits(q.creditLimit) then
        r == Failure(OutOfRange)
      else if q.localReserved < 0 || q.treasuryReserved < 0 || q.creditLimit < 0
              || (!reconciling && a.program.position.localReserved < q.localReserved && q.creditLimit < q.localReserved) then
        r == Failure(CheckViolation)
      else r.Success?
  {
    OneEntry(e);
    var r := Advance(a.program.position, [e], now);
    assert Moved(a.program.position, [e]) == Shifted(a.program.position, e);
    assert r.entries[0].entry == e;
    assert forall k :: 0 < k < |r.entries| ==> r.entries[k].entry.delta == 0;
  }

  predicate In64Bits(n: int) {
    -9223372036854775808 <= n <= 9223372036854775807
  }

  // ---------- Requests ----------

  predicate HasInvoice(a: Account, invoiceId: string) {
    exists k :: 0 <= k < |a.reservations| && a.reservations[k].invoiceId == invoiceId
  }

  predicate Closed(r: ReservationRow) {
    r.status == FullyReleased || r.status == Cancelled || r.status == WrittenOff
  }

  /** The rate a reservation recorded, 1.0 when it needed none. */
  function RecordedRate(r: ReservationRow): int {
    if r.fxRate.Some? then r.fxRate.value else 10_000_000_000
  }

  lemma InvoiceIsLocated(a: Account, invoiceId: string)
    ensures HasInvoice(a, invoiceId) <==> Locate(a.reservations, invoiceId) < |a.reservations|
  {
  }

  /** What a transaction writes when it is carried out: one account and the completed record of its key. */
  function CarriedOut(db: Db, c: Command, operation: Operation, account: Account, row: ReservationRow, now: Time): (Db, RequestResult) {
    var body := Body(row, account.program);
    (db.(accounts := db.accounts[c.programId := account],
         requests := db.requests[(c.organisationId, c.requestId) :=
           RequestRecord(operation, Fingerprint(c), Complete(body), now)]),
     Created(body))
  }

  function Answered(db: Db, c: Command, operation: Operation, refusal: Option<Refusal>, account: Account, row: ReservationRow, now: Time): (Db, RequestResult) {
    if refusal.Some? then (db, Refused(refusal.value)) else CarriedOut(db, c, operation, account, row, now)
  }

  function WorkFor(refusal: Option<Refusal>, account: Account, row: ReservationRow): Work {
    if refusal.Some? then Refuses(refusal.value) else Done(account, Body(row, account.program))
  }

  lemma NewKeyIsAnswered(db: Db, c: Command, refusal: Option<Refusal>, account: Account, row: ReservationRow, now: Time)
    requires KeyOf(c) !in db.requests
    ensures Conclude(db, c, WorkFor(refusal, account, row), now) == Answered(db, c,
      (match c.action case ReserveAction(_, _) => ReserveOp case ReleaseAction(_, _) => ReleaseOp case CancelAction(_, _) => CancelOp),
      refusal, account, row, now)
  {
  }

  // ---------- Reserve ----------

  /** The refusals of a reservation in the order they are decided; `worth` is what the invoice amount converts to. */
  function ReserveRefusal(a: Account, c: Command, rate: Option<ScaledRate>, worth: int): Option<Refusal>
    requires c.action.ReserveAction?
  {
    var p := a.program.position;
    if HasInvoice(a, c.invoiceId) then Some(DuplicateInvoice)
    else if !p.positionVerified then Some(PositionUnverified)
    else if p.localReserved + p.treasuryReserved > p.creditLimit then Some(ProgramOverLimit)
    else if c.action.currency != p.currency && rate.None? then Some(FxRateUnavailable)
    else if worth == 0 then Some(AmountRoundsToZero)
    else if worth > p.creditLimit - p.localReserved - p.treasuryReserved then Some(InsufficientCapacity)
    else None
  }

  /** The reservation row as it is inserted. */
  function ReservedRow(a: Account, c: Command, rate: Option<ScaledRate>, worth: int, now: Time): ReservationRow
    requires c.action.ReserveAction?
  {
    ReservationRow(
      c.invoiceId, c.action.amount, c.action.currency, a.program.position.currency, worth, c.action.amount, worth,
      if c.action.currency == a.program.position.currency || rate.None? then None else Some(rate.value),
      Active, LocalOrigin, false, None, None, now, now)
  }

  function ReservedAccount(a: Account, c: Command, rate: Option<ScaledRate>, worth: int, now: Time): Account
    requires c.action.ReserveAction?
  {
    AfterEntry(a.(reservations := a.reservations + [ReservedRow(a, c, rate, worth, now)]),
               PendingEntry(worth, Local, Reservation, Some(c.invoiceId), c.actor, c.correlationId), now)
  }

  /** `worth` is the invoice amount itself, or the integer nearest to it at the rate. */
  ghost predicate IsWorth(a: Account, c: Command, rate: Option<ScaledRate>, worth: int)
    requires c.action.ReserveAction?
  {
    if c.action.currency == a.program.position.currency then worth == c.action.amount
    else rate.Some? ==> IsNearest(c.action.amount * rate.value, 10_000_000_000, worth)
  }

  lemma ReserveWorkIs(a: Account, c: Command, rate: Option<ScaledRate>, worth: int, now: Time)
    requires AccountInv(a) && c.action.ReserveAction? && 0 < c.action.amount <= INT64_MAX && IsWorth(a, c, rate, worth)
    ensures WorkOf(a, c, rate, now) == WorkFor(
      ReserveRefusal(a, c, rate, worth), ReservedAccount(a, c, rate, worth, now), ReservedRow(a, c, rate, worth, now))
  {
    var p, amount, currency := a.program.position, c.action.amount, c.action.currency;
    InvoiceIsLocated(a, c.invoiceId);
    if currency != p.currency && rate.Some? {
      AtRateIsNearest(amount, rate.value, worth);
      AtRateShape(amount, 0, rate.value);
    }
    ReserveSucceeds(a, c, amount, currency, rate, now);
    if ReserveWork(a, c, amount, currency, rate, now).Done? {
      var d := DecideReservation(p, amount, Resolve(currency, p.currency, rate)).value;
      var row := NewReservation(c, amount, currency, p.currency, d, now);
      assert row == ReservedRow(a, c, rate, worth, now);
      PersistIs(a.(reservations := a.reservations + [row]), LocalEntry(c, d.reserved, Reservation), now);
    }
  }

  /**
   * In every run a new reservation request is refused, for the first of these reasons that holds, or
   * inserts its row, raises LOCAL by the nearest integer to amount times rate through one ledger entry,
   * and records its key.
   */
  lemma {:induction false} ReservationAnswered(ops: seq<Op>, c: Command, rate: Option<ScaledRate>, worth: int, now: Time)
    requires AllWellFormed(ops) && c.programId in Run(EMPTY, ops).accounts && KeyOf(c) !in Run(EMPTY, ops).requests
    requires c.action.ReserveAction? && Validated(c) && IsWorth(Run(EMPTY, ops).accounts[c.programId], c, rate, worth)
    ensures var db := Run(EMPTY, ops);
      var a := db.accounts[c.programId];
      RunRequest(db, c, rate, now) == Answered(db, c, ReserveOp, ReserveRefusal(a, c, rate, worth),
                                               ReservedAccount(a, c, rate, worth, now), ReservedRow(a, c, rate, worth, now), now)
  {
    hide Run, WorkOf, Conclude, AccountInv;
    var db := Run(EMPTY, ops);
    var a := db.accounts[c.programId];
    EveryRunKeepsInv(ops);
    ReserveWorkIs(a, c, rate, worth, now);
    NewKeyIsAnswered(db, c, ReserveRefusal(a, c, rate, worth), ReservedAccount(a, c, rate, worth, now),
                     ReservedRow(a, c, rate, worth, now), now);
  }

  // ---------- Release ----------

  /** The refusals of a release in order; `worth` is the release converted, `left` the remaining invoice converted. */
  function ReleaseRefusal(a: Account, i: nat, amount: int, currency: string, worth: int, left: int): Option<Refusal>
    requires i <= |a.reservations|
  {
    if !a.program.position.positionVerified then Some(PositionUnverified)
    else if i == |a.reservations| then Some(NotFound)
    else
      var r := a.reservations[i];
      if amount <= 0 then Some(InvalidAmount)
      else if currency != r.invoiceCurrency then Some(CurrencyMismatch)
      else if Closed(r) then Some(ReservationTerminal)
      else if amount > r.outstandingInvoice then Some(ReleaseExceedsReserved)
      else if worth == 0 || left == r.outstandingReserved then Some(AmountRoundsToZero)
      else None
  }

  /** The row after a release: dust that converts to nothing is settled with it. */
  function ReleasedRow(r: ReservationRow, amount: int, left: int, now: Time): ReservationRow {
    r.(outstandingInvoice := if left == 0 then 0 else r.outstandingInvoice - amount, outstandingReserved := left,
       status := if left == 0 then FullyReleased else PartiallyReleased, updatedAt := now)
  }

  function SettledAccount(a: Account, i: nat, c: Command, row: ReservationRow, delta: int, cause: Cause, now: Time): Account
    requires i < |a.reservations|
  {
    AfterEntry(a, PendingEntry(delta, Local, cause, Some(c.invoiceId), c.actor, c.correlationId), now)
      .(reservations := a.reservations[i := row])
  }

  /** The row the invoice has, if `i` is an index, and none if it is the number of rows. */
  predicate IsRowOf(a: Account, i: nat, invoiceId: string) {
    if i < |a.reservations| then a.reservations[i].invoiceId == invoiceId
    else i == |a.reservations| && !HasInvoice(a, invoiceId)
  }

  lemma RowIsLocated(a: Account, i: nat, invoiceId: string)
    requires DistinctInvoices(a.reservations) && IsRowOf(a, i, invoiceId)
    ensures Locate(a.reservations, invoiceId) == i
  {
    LocateIs(a.reservations, invoiceId, i);
  }

  lemma ReleaseDecisionIs(r: ReservationRow, amount: int, currency: string, worth: int, left: int, now: Time)
    requires Sound(r) && IsNearest(amount * RecordedRate(r), 10_000_000_000, worth)
    requires IsNearest((r.outstandingInvoice - amount) * RecordedRate(r), 10_000_000_000, left)
    ensures var d := ReleasePolicy(amount, currency, r, RateOf(r));
      if amount <= 0 then d == Failure(InvalidAmount)
      else if currency != r.invoiceCurrency then d == Failure(CurrencyMismatch)
      else if Closed(r) then d == Failure(ReservationTerminal)
      else if amount > r.outstandingInvoice then d == Failure(ReleaseExceedsReserved)
      else if worth == 0 || left == r.outstandingReserved then d == Failure(AmountRoundsToZero)
      else
        d.Success? && d.value.delta == r.outstandingReserved - left
        && Released(r, d.value).(updatedAt := now) == ReleasedRow(r, amount, left, now)
  {
    AtRateIsNearest(amount, RecordedRate(r), worth);
    AtRateIsNearest(r.outstandingInvoice - amount, RecordedRate(r), left);
    if 0 < amount <= r.outstandingInvoice { AtRateShape(r.outstandingInvoice - amount, amount, RateOf(r)); }
    AtRateShape(0, 0, RateOf(r));
  }

  lemma SettleIs(a: Account, i: nat, row: ReservationRow, entry: PendingEntry, now: Time)
    requires Gapless(a) && i < |a.reservations| && Settle(a, i, row, entry, now).Done?
    ensures var b := AfterEntry(a, entry, now);
      Settle(a, i, row, entry, now) == Done(b.(reservations := a.reservations[i := row]), Body(row, b.program))
  {
    hide AfterEntry;
    PersistIs(a, entry, now);
    AfterEntryKeepsReservations(a, entry, now);
  }

  lemma AfterEntryKeepsReservations(a: Account, e: PendingEntry, now: Time)
    ensures AfterEntry(a, e, now).reservations == a.reservations
  {
  }

  lemma ReleaseSettles(a: Account, c: Command, i: nat, left: int, now: Time)
    requires AccountInv(a) && c.action.ReleaseAction? && IsRowOf(a, i, c.invoiceId) && i < |a.reservations|
    requires a.program.position.positionVerified
    requires var d := ReleasePolicy(c.action.amount, c.action.currency, a.reservations[i], RateOf(a.reservations[i]));
      && d.Success? && d.value.delta == a.reservations[i].outstandingReserved - left
      && Released(a.reservations[i], d.value).(updatedAt := now) == ReleasedRow(a.reservations[i], c.action.amount, left, now)
    ensures var r := a.reservations[i];
      var row := ReleasedRow(r, c.action.amount, left, now);
      ReleaseWork(a, c, c.action.amount, c.action.currency, now)
        == WorkFor(None, SettledAccount(a, i, c, row, left - r.outstandingReserved, Release, now), row)
  {
    hide AfterEntry, Settle, ReleasedRow;
    var r := a.reservations[i];
    var row := ReleasedRow(r, c.action.amount, left, now);
    var entry := LocalEntry(c, left - r.outstandingReserved, Release);
    RowIsLocated(a, i, c.invoiceId);
    ReleaseKeepsBook(a, c, c.action.amount, c.action.currency, now);
    assert ReleaseWork(a, c, c.action.amount, c.action.currency, now) == Settle(a, i, row, entry, now);
    SettleCannotRefuse(a, i, row, entry, now);
    SettleIs(a, i, row, entry, now);
  }

  lemma SettleCannotRefuse(a: Account, i: nat, row: ReservationRow, entry: PendingEntry, now: Time)
    requires i < |a.reservations|
    ensures !Settle(a, i, row, entry, now).Refuses?
  {
  }

  lemma ReleaseWorkIs(a: Account, c: Command, i: nat, worth: int, left: int, now: Time)
    requires AccountInv(a) && c.action.ReleaseAction? && IsRowOf(a, i, c.invoiceId)
    requires i < |a.reservations| ==>
      && IsNearest(c.action.amount * RecordedRate(a.reservations[i]), 10_000_000_000, worth)
      && IsNearest((a.reservations[i].outstandingInvoice - c.action.amount) * RecordedRate(a.reservations[i]), 10_000_000_000, left)
    ensures var refusal := ReleaseRefusal(a, i, c.action.amount, c.action.currency, worth, left);
      if refusal.Some? then WorkOf(a, c, None, now) == Refuses(refusal.value)
      else
        var r := a.reservations[i];
        var row := ReleasedRow(r, c.action.amount, left, now);
        WorkOf(a, c, None, now) == WorkFor(None, SettledAccount(a, i, c, row, left - r.outstandingReserved, Release, now), row)
  {
    hide ReleasePolicy, AfterEntry, Settle, ReleasedRow;
    RowIsLocated(a, i, c.invoiceId);
    if i < |a.reservations| {
      ReleaseDecisionIs(a.reservations[i], c.action.amount, c.action.currency, worth, left, now);
      if ReleaseRefusal(a, i, c.action.amount, c.action.currency, worth, left).None? { ReleaseSettles(a, c, i, left, now); }
    }
  }

  lemma NewKeyRefused(db: Db, c: Command, work: Work, now: Time)
    requires KeyOf(c) !in db.requests && work.Refuses?
    ensures Conclude(db, c, work, now) == (db, Refused(work.code))
  {
  }

  /**
   * In every run a new release request is refused, for the first of these reasons that holds, or leaves
   * reserved the nearest integer to the remaining invoice times its rate, gives LOCAL the difference
   * through one ledger entry, and records its key. `i` is the invoice's row, or the number of rows.
   */
  lemma {:induction false} ReleaseAnswered(ops: seq<Op>, c: Command, i: nat, worth: int, left: int, now: Time)
    requires AllWellFormed(ops) && c.programId in Run(EMPTY, ops).accounts && KeyOf(c) !in Run(EMPTY, ops).requests
    requires c.action.ReleaseAction? && IsRowOf(Run(EMPTY, ops).accounts[c.programId], i, c.invoiceId)
    requires var rows := Run(EMPTY, ops).accounts[c.programId].reservations;
      i < |rows| ==>
        && IsNearest(c.action.amount * RecordedRate(rows[i]), 10_000_000_000, worth)
        && IsNearest((rows[i].outstandingInvoice - c.action.amount) * RecordedRate(rows[i]), 10_000_000_000, left)
    ensures var db := Run(EMPTY, ops);
      var a := db.accounts[c.programId];
      var refusal := ReleaseRefusal(a, i, c.action.amount, c.action.currency, worth, left);
      RunRequest(db, c, None, now) ==
        if refusal.Some? then (db, Refused(refusal.value))
        else
          var r := a.reservations[i];
          var row := ReleasedRow(r, c.action.amount, left, now);
          CarriedOut(db, c, ReleaseOp, SettledAccount(a, i, c, row, left - r.outstandingReserved, Release, now), row, now)
  {
    hide Run, WorkOf, Conclude, AccountInv, AfterEntry, ReleasedRow;
    var db := Run(EMPTY, ops);
    var a := db.accounts[c.programId];
    EveryRunKeepsInv(ops);
    ReleaseWorkIs(a, c, i, worth, left, now);
    if ReleaseRefusal(a, i, c.action.amount, c.action.currency, worth, left).Some? {
      NewKeyRefused(db, c, WorkOf(a, c, None, now), now);
    } else {
      var row := ReleasedRow(a.reservations[i], c.action.amount, left, now);
      NewKeyIsAnswered(db, c, None, SettledAccount(a, i, c, row, left - a.reservations[i].outstandingReserved, Release, now), row, now);
    }
  }

  // ---------- Cancel ----------

  function CancelRefusal(a: Account, i: nat): Option<Refusal>
    requires i <= |a.reservations|
  {
    if !a.program.position.positionVerified then Some(PositionUnverified)
    else if i == |a.reservations| then Some(NotFound)
    else if Closed(a.reservations[i]) then Some(ReservationTerminal)
    else None
  }

  function CancelledTo(r: ReservationRow, now: Time): ReservationRow {
    r.(outstandingReserved := 0, updatedAt := now, status := if r.status == PartiallyReleased then WrittenOff else Cancelled)
  }

  function CancelCause(r: ReservationRow): Cause {
    if r.status == PartiallyReleased then WriteOff else Cancellation
  }

  lemma CancelWorkIs(a: Account, c: Command, i: nat, now: Time)
    requires AccountInv(a) && c.action.CancelAction? && IsRowOf(a, i, c.invoiceId)
    ensures var refusal := CancelRefusal(a, i);
      WorkOf(a, c, None, now) ==
        if refusal.Some? then Refuses(refusal.value)
        else
          var r := a.reservations[i];
          WorkFor(None, SettledAccount(a, i, c, CancelledTo(r, now), -r.outstandingReserved, CancelCause(r), now), CancelledTo(r, now))
  {
    hide AfterEntry, Settle;
    RowIsLocated(a, i, c.invoiceId);
    if CancelRefusal(a, i).None? {
      var r := a.reservations[i];
      var entry := LocalEntry(c, -r.outstandingReserved, CancelCause(r));
      CancelKeepsBook(a, c, now);
      assert WorkOf(a, c, None, now) == Settle(a, i, CancelledTo(r, now), entry, now);
      SettleCannotRefuse(a, i, CancelledTo(r, now), entry, now);
      SettleIs(a, i, CancelledTo(r, now), entry, now);
    }
  }

  /**
   * In every run a new cancellation is refused, for the first of these reasons that holds, or returns
   * everything still reserved to LOCAL, as a write-off after a partial release and a cancellation otherwise.
   */
  lemma {:induction false} CancellationAnswered(ops: seq<Op>, c: Command, i: nat, now: Time)
    requires AllWellFormed(ops) && c.programId in Run(EMPTY, ops).accounts && KeyOf(c) !in Run(EMPTY, ops).requests
    requires c.action.CancelAction? && IsRowOf(Run(EMPTY, ops).accounts[c.programId], i, c.invoiceId)
    ensures var db := Run(EMPTY, ops);
      var a := db.accounts[c.programId];
      var refusal := CancelRefusal(a, i);
      RunRequest(db, c, None, now) ==
        if refusal.Some? then (db, Refused(refusal.value))
        else
          var r := a.reservations[i];
          CarriedOut(db, c, CancelOp, SettledAccount(a, i, c, CancelledTo(r, now), -r.outstandingReserved, CancelCause(r), now),
                     CancelledTo(r, now), now)
  {
    hide Run, WorkOf, Conclude, AccountInv, AfterEntry;
    var db := Run(EMPTY, ops);
    var a := db.accounts[c.programId];
    EveryRunKeepsInv(ops);
    CancelWorkIs(a, c, i, now);
    if CancelRefusal(a, i).Some? {
      NewKeyRefused(db, c, WorkOf(a, c, None, now), now);
    } else {
      var r := a.reservations[i];
      NewKeyIsAnswered(db, c, None, SettledAccount(a, i, c, CancelledTo(r, now), -r.outstandingReserved, CancelCause(r), now),
                       CancelledTo(r, now), now);
    }
  }

  // ---------- Known keys ----------

  predicate SameKind(o: Operation, action: Action) {
    match action
    case ReserveAction(_, _) => o == ReserveOp
    case ReleaseAction(_, _) => o == ReleaseOp
    case CancelAction(_, _) => o == CancelOp
  }

  /**
   * In every run a request under a known key changes nothing: it conflicts unless it is of the recorded
   * kind and content, and then replays the recorded outcome, or is told that it has expired.
   */
  lemma {:induction false} KnownKeyAnswered(ops: seq<Op>, c: Command, rate: Option<ScaledRate>, now: Time)
    requires AllWellFormed(ops) && c.programId in Run(EMPTY, ops).accounts
    requires (c.organisationId, c.requestId) in Run(EMPTY, ops).requests
    ensures var db := Run(EMPTY, ops);
      var r := db.requests[(c.organisationId, c.requestId)];
      !r.state.Pending? && RunRequest(db, c, rate, now) == (db,
        if !SameKind(r.operation, c.action) || r.fingerprint != Fingerprint(c) then Refused(IdempotencyConflict)
        else if r.state == Expired then Refused(IdempotencyExpired)
        else Replayed(r.state.outcome))
  {
    hide Run, WorkOf;
    var db := Run(EMPTY, ops);
    EveryRunKeepsInv(ops);
    ConcludeAnswersKnownKey(db, c, WorkOf(db.accounts[c.programId], c, rate, now), now, db.requests[KeyOf(c)]);
  }
}
