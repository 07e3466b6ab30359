/**
 * When each operation is carried out, and exactly what it then changes: for every reachable
 * database, in terms a caller could check beforehand.
 */
module Outcomes {
  import opened Wrappers
  import opened Arithmetic
  import opened Domain
  import opened Policies
  import opened Tables
  import opened Ledger
  import opened Book
  import opened Runs
  import opened Evolution
  import opened Guarantees

  /** What an invoice amount is worth in the program's currency. */
  function Worth(amount: int, currency: string, programCurrency: string, rate: Option<ScaledRate>): int {
    if currency == programCurrency || rate.None? then amount else AtRate(amount, rate.value)
  }

  /** Only one program moved, LOCAL by `delta`, by one ledger entry naming the invoice. */
  predicate Moves(a: Account, b: Account, invoiceId: string, delta: int, cause: Cause) {
    var p, q := a.program.position, b.program.position;
    && q.localReserved == p.localReserved + delta
    && q.treasuryReserved == p.treasuryReserved && q.creditLimit == p.creditLimit
    && |a.ledger| < |b.ledger| && b.ledger[..|a.ledger|] == a.ledger
    && var e := b.ledger[|a.ledger|].entry;
       e.component == Local && e.delta == delta && e.cause == cause && e.origin == Some(invoiceId)
  }

  lemma OneLocalEntry(a: Account, entry: PendingEntry, now: Time)
    requires entry.component == Local && entry.origin.Some? && Persist(a, [entry], now, false).Success?
    ensures Moves(a, Persist(a, [entry], now, false).value, entry.origin.value, entry.delta, entry.cause)
  {
    var b := Persist(a, [entry], now, false).value;
    OneEntry(entry);
    PersistAppends(a, [entry], now, false);
    assert Entries(b.ledger)[|a.ledger|] == b.ledger[|a.ledger|].entry;
    assert Entries(b.ledger)[|a.ledger|] == Batch(a.program.position, [entry])[0];
  }

  lemma NewKeyConcludes(db: Db, c: Command, work: Work, now: Time)
    requires KeyOf(c) !in db.requests
    ensures Conclude(db, c, work, now).1.Created? <==> work.Done?
    ensures work.Done? ==>
      && Conclude(db, c, work, now).0.accounts == db.accounts[c.programId := work.account]
      && Conclude(db, c, work, now).1.body == work.body
  {
  }

  // ---------- Reserve ----------

  predicate Reservable(a: Account, c: Command, amount: int, currency: string, rate: Option<ScaledRate>) {
    var p := a.program.position;
    && p.positionVerified && !IsOverLimit(p)
    && (forall k :: 0 <= k < |a.reservations| ==> a.reservations[k].invoiceId != c.invoiceId)
    && (currency == p.currency || rate.Some?)
    && 0 < Worth(amount, currency, p.currency, rate) <= Available(p)
  }

  lemma ReserveDoes(a: Account, c: Command, amount: int, currency: string, rate: Option<ScaledRate>, now: Time)
    requires AccountInv(a) && 0 < amount <= INT64_MAX
    ensures var w := ReserveWork(a, c, amount, currency, rate, now);
      var worth := Worth(amount, currency, a.program.position.currency, rate);
      && (w.Done? <==> Reservable(a, c, amount, currency, rate))
      && (w.Done? ==>
            && Moves(a, w.account, c.invoiceId, worth, Reservation)
            && w.account.reservations == a.reservations + [w.body.reservation]
            && var r := w.body.reservation;
               r.invoiceId == c.invoiceId && r.status == Active && r.reserved == r.outstandingReserved == worth
               && r.invoiceAmount == r.outstandingInvoice == amount)
  {
    var p := a.program.position;
    UnitRateIsIdentity(amount);
    if currency != p.currency && rate.Some? { AtRateShape(amount, 0, rate.value); }
    ReserveSucceeds(a, c, amount, currency, rate, now);
    if ReserveWork(a, c, amount, currency, rate, now).Done? {
      var d := DecideReservation(p, amount, Resolve(currency, p.currency, rate)).value;
      var row := NewReservation(c, amount, currency, p.currency, d, now);
      OneLocalEntry(a.(reservations := a.reservations + [row]), LocalEntry(c, d.reserved, Reservation), now);
    }
  }

  /**
   * In every run a new reservation request is carried out exactly when the position is verified and
   * within its limit, the invoice is new, a rate is there if one is needed, and the converted amount
   * is positive and no more than what is available; it then moves LOCAL by that amount.
   */
  lemma {:induction false} ReservedIff(ops: seq<Op>, c: Command, rate: Option<ScaledRate>, now: Time)
    requires AllWellFormed(ops) && c.programId in Run(EMPTY, ops).accounts && KeyOf(c) !in Run(EMPTY, ops).requests
    requires c.action.ReserveAction? && Validated(c)
    ensures var db := Run(EMPTY, ops);
      var a, (after, answer) := db.accounts[c.programId], RunRequest(db, c, rate, now);
      && (answer.Created? <==> Reservable(a, c, c.action.amount, c.action.currency, rate))
      && (answer.Created? ==>
            var worth := Worth(c.action.amount, c.action.currency, a.program.position.currency, rate);
            && (if c.action.currency == a.program.position.currency then worth == c.action.amount
                else rate.Some? && IsNearest(c.action.amount * rate.value, 10_000_000_000, worth))
            && after.accounts == db.accounts[c.programId := after.accounts[c.programId]]
            && Moves(a, after.accounts[c.programId], c.invoiceId, worth, Reservation)
            && after.accounts[c.programId].reservations == a.reservations + [answer.body.reservation]
            && answer.body.reservation.outstandingReserved == worth)
  {
    var db := Run(EMPTY, ops);
    EveryRunKeepsInv(ops);
    ReserveDoes(db.accounts[c.programId], c, c.action.amount, c.action.currency, rate, now);
    if rate.Some? { RoundedIsNearest(c.action.amount * rate.value, 10_000_000_000); }
    NewKeyConcludes(db, c, WorkOf(db.accounts[c.programId], c, rate, now), now);
  }

  // ---------- Release ----------

  predicate Releasable(r: ReservationRow, amount: int, currency: string) {
    && !Terminal(r.status) && currency == r.invoiceCurrency
    && 0 < amount <= r.outstandingInvoice && AtRate(amount, RateOf(r)) > 0
    && AtRate(r.outstandingInvoice - amount, RateOf(r)) < r.outstandingReserved
  }

  /** What the remaining invoice is worth after a release. */
  function Left(r: ReservationRow, amount: int): int {
    AtRate(r.outstandingInvoice - amount, RateOf(r))
  }

  lemma GoodAccount(db: Db, p: string)
    requires Inv(db) && p in db.accounts
    ensures AccountInv(db.accounts[p])
  {
  }

  lemma LeftIsNearest(r: ReservationRow, amount: int)
    ensures var rate := if r.fxRate.Some? then r.fxRate.value else 10_000_000_000;
      IsNearest((r.outstandingInvoice - amount) * rate, 10_000_000_000, Left(r, amount))
  {
    AtRateIsNearest(r.outstandingInvoice - amount, RateOf(r), Left(r, amount));
  }

  /** The row after a release: what is left, and closed when that is nothing. */
  predicate ReleasedTo(r: ReservationRow, amount: int, s: ReservationRow) {
    && s.invoiceId == r.invoiceId && s.outstandingReserved == Left(r, amount)
    && s.status == (if Left(r, amount) == 0 then FullyReleased else PartiallyReleased)
    && s.outstandingInvoice == (if Left(r, amount) == 0 then 0 else r.outstandingInvoice - amount)
  }

  lemma ReleasePolicyAccepts(r: ReservationRow, amount: int, currency: string)
    requires Sound(r)
    ensures var d := ReleasePolicy(amount, currency, r, RateOf(r));
      && (d.Success? <==> Releasable(r, amount, currency))
      && (d.Success? ==> d.value.delta == r.outstandingReserved - Left(r, amount) && ReleasedTo(r, amount, Released(r, d.value)))
  {
    if 0 < amount <= r.outstandingInvoice { AtRateShape(r.outstandingInvoice - amount, amount, RateOf(r)); }
    AtRateShape(0, 0, RateOf(r));
  }

  lemma ReleaseDoes(a: Account, c: Command, i: nat, amount: int, currency: string, now: Time)
    requires AccountInv(a) && i < |a.reservations| && a.reservations[i].invoiceId == c.invoiceId
    ensures var r, w := a.reservations[i], ReleaseWork(a, c, amount, currency, now);
      && (w.Done? <==> a.program.position.positionVerified && Releasable(r, amount, currency))
      && (w.Done? ==>
            && Moves(a, w.account, c.invoiceId, Left(r, amount) - r.outstandingReserved, Release)
            && w.account.reservations == a.reservations[i := w.body.reservation]
            && ReleasedTo(r, amount, w.body.reservation))
  {
    LocateIs(a.reservations, c.invoiceId, i);
    ReleasePolicyAccepts(a.reservations[i], amount, currency);
    ReleaseKeepsBook(a, c, amount, currency, now);
    if ReleaseWork(a, c, amount, currency, now).Done? {
      var j, d := ReleaseShape(a, c, amount, currency, now);
      OneLocalEntry(a, LocalEntry(c, -d.delta, Release), now);
    }
  }

  lemma ReleasedIn(db: Db, c: Command, i: nat, now: Time)
    requires c.programId in db.accounts && AccountInv(db.accounts[c.programId]) && KeyOf(c) !in db.requests
    requires c.action.ReleaseAction? && i < |db.accounts[c.programId].reservations|
    requires db.accounts[c.programId].reservations[i].invoiceId == c.invoiceId
    ensures var a, (after, answer) := db.accounts[c.programId], RunRequest(db, c, None, now);
      var r := a.reservations[i];
      && (answer.Created? <==> a.program.position.positionVerified && Releasable(r, c.action.amount, c.action.currency))
      && (answer.Created? ==>
            && after.accounts == db.accounts[c.programId := after.accounts[c.programId]]
            && Moves(a, after.accounts[c.programId], c.invoiceId, Left(r, c.action.amount) - r.outstandingReserved, Release)
            && after.accounts[c.programId].reservations == a.reservations[i := answer.body.reservation]
            && ReleasedTo(r, c.action.amount, answer.body.reservation))
  {
    hide AccountInv, ReleaseWork, Moves, Releasable, ReleasedTo, Left, Conclude;
    var a := db.accounts[c.programId];
    ReleaseDoes(a, c, i, c.action.amount, c.action.currency, now);
    NewKeyConcludes(db, c, WorkOf(a, c, None, now), now);
  }

  /**
   * In every run a new release request for a known invoice is carried out exactly when the position
   * is verified, the reservation open, the currency the invoice's, the amount positive and no more
   * than is outstanding, and both it and what it frees round to at least one unit. What stays
   * reserved is the remaining invoice converted, and the reservation closes when that is zero.
   */
  lemma {:induction false} ReleasedIff(ops: seq<Op>, c: Command, i: nat, now: Time)
    requires AllWellFormed(ops) && c.programId in Run(EMPTY, ops).accounts && KeyOf(c) !in Run(EMPTY, ops).requests
    requires c.action.ReleaseAction? && i < |Run(EMPTY, ops).accounts[c.programId].reservations|
    requires Run(EMPTY, ops).accounts[c.programId].reservations[i].invoiceId == c.invoiceId
    ensures var db := Run(EMPTY, ops);
      var a, (after, answer) := db.accounts[c.programId], RunRequest(db, c, None, now);
      var r := a.reservations[i];
      && (answer.Created? <==> a.program.position.positionVerified && Releasable(r, c.action.amount, c.action.currency))
      && (answer.Created? ==>
            && after.accounts == db.accounts[c.programId := after.accounts[c.programId]]
            && Moves(a, after.accounts[c.programId], c.invoiceId, Left(r, c.action.amount) - r.outstandingReserved, Release)
            && after.accounts[c.programId].reservations == a.reservations[i := answer.body.reservation]
            && ReleasedTo(r, c.action.amount, answer.body.reservation)
            && var rate := if r.fxRate.Some? then r.fxRate.value else 10_000_000_000;
               IsNearest((r.outstandingInvoice - c.action.amount) * rate, 10_000_000_000, answer.body.reservation.outstandingReserved))
  {
    hide Run, Inv, RunRequest, Moves, Releasable, IsNearest, Left;
    var db := Run(EMPTY, ops);
    EveryRunKeepsInv(ops);
    GoodAccount(db, c.programId);
    ReleasedIn(db, c, i, now);
    LeftIsNearest(db.accounts[c.programId].reservations[i], c.action.amount);
  }

  // ---------- Releases over a run ----------

  /** The operation is a release of the invoice that is carried out. */
  predicate IsReleaseOf(db: Db, op: Op, p: string, invoiceId: string) {
    && op.Request? && op.c.action.ReleaseAction? && op.c.programId == p && op.c.invoiceId == invoiceId
    && RunRequest(db, op.c, op.rate, op.now).1.Created?
  }

  /** How many releases of the invoice a run carries out. */
  function Releases(db: Db, ops: seq<Op>, p: string, invoiceId: string): nat {
    if ops == [] then 0 else
      var before := ops[..|ops| - 1];
      Releases(db, before, p, invoiceId) + if IsReleaseOf(Run(db, before), ops[|ops| - 1], p, invoiceId) then 1 else 0
  }

  /** `n` releases are paid for by what the reservation no longer holds; none without a reservation. */
  predicate PaidFor(db: Db, p: string, invoiceId: string, n: nat) {
    if p in db.accounts && Locate(db.accounts[p].reservations, invoiceId) < |db.accounts[p].reservations| then
      var r := db.accounts[p].reservations[Locate(db.accounts[p].reservations, invoiceId)];
      n + r.outstandingReserved <= r.reserved
    else n == 0
  }

  lemma LocateStays(a: seq<ReservationRow>, b: seq<ReservationRow>, invoiceId: string)
    requires RowsEvolve(a, b) && Locate(a, invoiceId) < |a|
    ensures Locate(b, invoiceId) == Locate(a, invoiceId)
  {
    var i := Locate(a, invoiceId);
    assert forall k :: 0 <= k <= i ==> RowEvolves(a[k], b[k]);
    LocateIs(b, invoiceId, i);
  }

  lemma EvolvingStaysPaid(a: Db, b: Db, p: string, invoiceId: string, n: nat)
    requires Inv(b) && Evolves(a, b) && PaidFor(a, p, invoiceId, n)
    ensures PaidFor(b, p, invoiceId, n)
  {
    if p in a.accounts && Locate(a.accounts[p].reservations, invoiceId) < |a.accounts[p].reservations| {
      var i := Locate(a.accounts[p].reservations, invoiceId);
      assert AccountEvolves(a.accounts[p], b.accounts[p]);
      LocateStays(a.accounts[p].reservations, b.accounts[p].reservations, invoiceId);
      assert RowEvolves(a.accounts[p].reservations[i], b.accounts[p].reservations[i]);
    } else if p in b.accounts && Locate(b.accounts[p].reservations, invoiceId) < |b.accounts[p].reservations| {
      assert Sound(b.accounts[p].reservations[Locate(b.accounts[p].reservations, invoiceId)]);
    }
  }

  lemma CreatedAccount(db: Db, c: Command, rate: Option<ScaledRate>, now: Time)
    requires RunRequest(db, c, rate, now).1.Created?
    ensures c.programId in db.accounts && WorkOf(db.accounts[c.programId], c, rate, now).Done?
    ensures RunRequest(db, c, rate, now).0.accounts
      == db.accounts[c.programId := WorkOf(db.accounts[c.programId], c, rate, now).account]
  {
  }

  /** A release leaves its reservation in place with at least one unit less. */
  lemma ReleaseLowers(a: Account, c: Command, amount: int, currency: string, now: Time)
    requires AccountInv(a) && ReleaseWork(a, c, amount, currency, now).Done?
    ensures var i, b := Locate(a.reservations, c.invoiceId), ReleaseWork(a, c, amount, currency, now).account;
      && i < |a.reservations| == |b.reservations| && Locate(b.reservations, c.invoiceId) == i
      && b.reservations[i].reserved == a.reservations[i].reserved
      && b.reservations[i].outstandingReserved < a.reservations[i].outstandingReserved
  {
    var i, d := ReleaseShape(a, c, amount, currency, now);
    ReleaseDoes(a, c, i, amount, currency, now);
    LocateIs(ReleaseWork(a, c, amount, currency, now).account.reservations, c.invoiceId, i);
  }

  lemma ReleasePays(db: Db, c: Command, rate: Option<ScaledRate>, now: Time, n: nat)
    requires Inv(db) && IsReleaseOf(db, Request(c, rate, now), c.programId, c.invoiceId) && PaidFor(db, c.programId, c.invoiceId, n)
    ensures PaidFor(RunRequest(db, c, rate, now).0, c.programId, c.invoiceId, n + 1)
  {
    hide RunRequest, ReleaseWork, AccountInv;
    CreatedAccount(db, c, rate, now);
    ReleaseLowers(db.accounts[c.programId], c, c.action.amount, c.action.currency, now);
  }

  lemma StepStaysPaid(db: Db, op: Op, p: string, invoiceId: string, n: nat)
    requires Inv(db) && WellFormed(op) && PaidFor(db, p, invoiceId, n)
    ensures PaidFor(Step(db, op), p, invoiceId, n + if IsReleaseOf(db, op, p, invoiceId) then 1 else 0)
  {
    if IsReleaseOf(db, op, p, invoiceId) {
      ReleasePays(db, op.c, op.rate, op.now, n);
    } else {
      StepKeepsInv(db, op);
      StepEvolves(db, op);
      EvolvingStaysPaid(db, Step(db, op), p, invoiceId, n);
    }
  }

  /**
   * In every run, whatever else happens, the releases carried out for an invoice number at most what its
   * reservation has given back, and so at most the amount it reserved.
   */
  lemma {:induction false} ReleasesInRuns(ops: seq<Op>, p: string, invoiceId: string)
    requires AllWellFormed(ops)
    ensures PaidFor(Run(EMPTY, ops), p, invoiceId, Releases(EMPTY, ops, p, invoiceId))
  {
    if ops != [] {
      var before := ops[..|ops| - 1];
      ReleasesInRuns(before, p, invoiceId);
      EveryRunKeepsInv(before);
      StepStaysPaid(Run(EMPTY, before), ops[|ops| - 1], p, invoiceId, Releases(EMPTY, before, p, invoiceId));
    }
  }

  // ---------- Cancel ----------

  lemma CancelDoes(a: Account, c: Command, i: nat, now: Time)
    requires AccountInv(a) && i < |a.reservations| && a.reservations[i].invoiceId == c.invoiceId
    ensures var r, w := a.reservations[i], CancelWork(a, c, now);
      && (w.Done? <==> a.program.position.positionVerified && !Terminal(r.status))
      && (w.Done? ==>
            && Moves(a, w.account, c.invoiceId, -r.outstandingReserved, if r.status == Active then Cancellation else WriteOff)
            && w.account.reservations == a.reservations[i := w.body.reservation]
            && w.body.reservation == r.(outstandingReserved := 0, updatedAt := now,
                                        status := if r.status == Active then Cancelled else WrittenOff))
  {
    LocateIs(a.reservations, c.invoiceId, i);
    CancelKeepsBook(a, c, now);
    if CancelWork(a, c, now).Done? {
      var j, d := CancelShape(a, c, now);
      OneLocalEntry(a, LocalEntry(c, -d.delta, d.cause), now);
    }
  }

  /**
   * In every run a new cancellation of a known invoice is carried out exactly when the position is
   * verified and the reservation open; it returns everything still reserved, as a cancellation if
   * nothing had been released and as a write-off otherwise.
   */
  lemma {:induction false} CancelledIff(ops: seq<Op>, c: Command, i: nat, now: Time)
    requires AllWellFormed(ops) && c.programId in Run(EMPTY, ops).accounts && KeyOf(c) !in Run(EMPTY, ops).requests
    requires c.action.CancelAction? && i < |Run(EMPTY, ops).accounts[c.programId].reservations|
    requires Run(EMPTY, ops).accounts[c.programId].reservations[i].invoiceId == c.invoiceId
    ensures var db := Run(EMPTY, ops);
      var a, (after, answer) := db.accounts[c.programId], RunRequest(db, c, None, now);
      var r := a.reservations[i];
      && (answer.Created? <==> a.program.position.positionVerified && !Terminal(r.status))
      && (answer.Created? ==>
            && after.accounts == db.accounts[c.programId := after.accounts[c.programId]]
            && Moves(a, after.accounts[c.programId], c.invoiceId, -r.outstandingReserved, if r.status == Active then Cancellation else WriteOff)
            && after.accounts[c.programId].reservations == a.reservations[i := answer.body.reservation]
            && answer.body.reservation.status == (if r.status == Active then Cancelled else WrittenOff))
  {
    var db := Run(EMPTY, ops);
    EveryRunKeepsInv(ops);
    CancelDoes(db.accounts[c.programId], c, i, now);
    NewKeyConcludes(db, c, WorkOf(db.accounts[c.programId], c, None, now), now);
  }

  // ---------- Events ----------

  /** A first delivery: nothing recorded under the event's id or version. */
  predicate Unrecorded(db: Db, e: CapacityEvent) {
    && Find(db.processed, ById(e.messageId)).None?
    && Find(db.processed, ByVersion(e.programId, EventKind, e.version)).None?
  }

  /** What the event makes of the component it is about. */
  function Intended(p: Position, e: CapacityEvent): int {
    match e.eventType
    case ReservationBooked => p.treasuryReserved + e.amount
    case ReservationReleased => p.treasuryReserved - e.amount
    case LimitChanged => e.amount
  }

  lemma EventDoes(a: Account, e: CapacityEvent, at: Coordinates, now: Time)
    requires LedgerInv(a) && FitsInt64(e.amount)
    ensures var work, p := EventWork(a, e, at, now), a.program.position;
      && (work.Failure? <==> !IsEcho(a.reservations, e) && !(0 <= Intended(p, e) <= INT64_MAX))
      && (work.Success? ==>
            var q := work.value.program.position;
            && q.localReserved == p.localReserved
            && q.treasuryReserved == (if IsEcho(a.reservations, e) || e.eventType.LimitChanged? then p.treasuryReserved else Intended(p, e))
            && q.creditLimit == (if e.eventType.LimitChanged? then e.amount else p.creditLimit))
  {
    var entry := EventEntry(e, a.program.position.creditLimit);
    OneEntry(entry);
    if !IsEcho(a.reservations, e) && 0 <= Intended(a.program.position, e) <= INT64_MAX {
      PersistAccepts(a, [entry], now, false);
    }
  }

  /**
   * In every run the first delivery of an event to its program fails exactly when its version exceeds
   * 64 bits or, unless it is an echo, it would take the component it is about below zero or past 64
   * bits; otherwise an echo moves nothing and any other event moves that component, and only that, to
   * what it intends.
   */
  lemma {:induction false} EventAppliedIff(ops: seq<Op>, e: CapacityEvent, at: Coordinates, now: Time)
    requires AllWellFormed(ops) && e.programId in Run(EMPTY, ops).accounts && Unrecorded(Run(EMPTY, ops), e)
    requires FitsInt64(e.amount)
    requires e.currency == Run(EMPTY, ops).accounts[e.programId].program.position.currency
    ensures var db := Run(EMPTY, ops);
      var a, (after, answer) := db.accounts[e.programId], RunEvent(db, e, at, now);
      var p := a.program.position;
      if !FitsInt64(e.version) then
        answer == ApplyFaulted(OutOfRange) && after == db
      else if IsEcho(a.reservations, e) then
        answer == EchoSuppressed && after.accounts[e.programId].program.position == p
      else if 0 <= Intended(p, e) <= INT64_MAX then
        && answer == Applied
        && var q := after.accounts[e.programId].program.position;
           q.localReserved == p.localReserved
           && (if e.eventType.LimitChanged? then q.creditLimit == Intended(p, e) && q.treasuryReserved == p.treasuryReserved
               else q.treasuryReserved == Intended(p, e) && q.creditLimit == p.creditLimit)
      else
        answer.ApplyFaulted? && after == db
  {
    var db := Run(EMPTY, ops);
    EveryRunKeepsInv(ops);
    var a := db.accounts[e.programId];
    EventDoes(a, e, at, now);
    UnrecordedConcludes(db, e, EventWork(a, e, at, now), IsEcho(a.reservations, e));
  }

  lemma UnrecordedConcludes(db: Db, e: CapacityEvent, work: Result<Account, Fault>, echo: bool)
    requires Unrecorded(db, e)
    ensures ConcludeEvent(db, e, work, echo) == match work
      case Failure(f) => (db, ApplyFaulted(f))
      case Success(b) => (Recorded(db, b, ProcessedEvent(e)), if echo then EchoSuppressed else Applied)
  {
  }

  // ---------- Snapshots ----------

  /** The snapshot is new, not older than what is applied, covers its acknowledgements and moves TREASURY plausibly. */
  predicate Acceptable(db: Db, s: Snapshot, basisPoints: int)
    requires s.programId in db.accounts && s.acknowledgement.Some?
  {
    var a := db.accounts[s.programId];
    var p := a.program.position;
    var acknowledged := Outstanding(Mark(s.acknowledgement.value, s.version, a.reservations), AcknowledgedLocal);
    && s.currency == p.currency && a.program.treasuryVersion <= s.version
    && Find(db.processed, ById(s.messageId)).None?
    && Find(db.processed, ByVersion(s.programId, SnapshotKind, s.version)).None?
    && acknowledged <= s.reserved
    && Abs(s.reserved - acknowledged - p.treasuryReserved) * 10_000 <= basisPoints * p.creditLimit
  }

  lemma SnapshotAccepts(a: Account, s: Snapshot, marker: Marker, at: Coordinates, now: Time, basisPoints: int)
    requires AccountInv(a) && Parsed(s)
    ensures var acknowledged := Outstanding(Mark(marker, s.version, a.reservations), AcknowledgedLocal);
      SnapshotWorkOf(a, s, marker, at, now, basisPoints).Accepts? <==>
        && acknowledged <= s.reserved
        && Abs(s.reserved - acknowledged - a.program.position.treasuryReserved) * 10_000 <= basisPoints * a.program.position.creditLimit
  {
    SnapshotKeepsBook(a, s, marker, at, now, basisPoints);
  }

  lemma SnapshotConcludes(db: Db, s: Snapshot, applied: int, work: SnapshotWork)
    ensures ConcludeSnapshot(db, s, applied, work).1 == Applied <==>
      && work.Accepts? && applied <= s.version && Find(db.processed, ById(s.messageId)).None?
      && Find(db.processed, ByVersion(s.programId, SnapshotKind, s.version)).None?
    ensures ConcludeSnapshot(db, s, applied, work).1 != Applied ==> ConcludeSnapshot(db, s, applied, work).0 == db
  {
  }

  lemma RunsTheWork(db: Db, s: Snapshot, at: Coordinates, now: Time, basisPoints: int, work: SnapshotWork)
    requires s.programId in db.accounts && s.acknowledgement.Some?
    requires work == SnapshotWorkOf(db.accounts[s.programId], s, s.acknowledgement.value, at, now, basisPoints)
    ensures RunSnapshot(db, s, at, now, basisPoints) ==
      if db.accounts[s.programId].program.position.currency == s.currency then
        ConcludeSnapshot(db, s, db.accounts[s.programId].program.treasuryVersion, work)
      else (db, Quarantined(CurrencyMismatched))
  {
  }

  lemma SnapshotDoes(db: Db, s: Snapshot, at: Coordinates, now: Time, basisPoints: int)
    requires s.programId in db.accounts && AccountInv(db.accounts[s.programId]) && Parsed(s) && s.acknowledgement.Some?
    ensures RunSnapshot(db, s, at, now, basisPoints).1 == Applied <==> Acceptable(db, s, basisPoints)
    ensures RunSnapshot(db, s, at, now, basisPoints).1 != Applied ==> RunSnapshot(db, s, at, now, basisPoints).0 == db
  {
    var a := db.accounts[s.programId];
    var work := SnapshotWorkOf(a, s, s.acknowledgement.value, at, now, basisPoints);
    SnapshotAccepts(a, s, s.acknowledgement.value, at, now, basisPoints);
    SnapshotConcludes(db, s, a.program.treasuryVersion, work);
    RunsTheWork(db, s, at, now, basisPoints, work);
  }

  /** In every run a parsed snapshot is applied exactly when it is acceptable; if not, nothing changes. */
  lemma {:induction false} SnapshotAppliedIff(ops: seq<Op>, s: Snapshot, at: Coordinates, now: Time, basisPoints: int)
    requires AllWellFormed(ops) && Parsed(s) && s.programId in Run(EMPTY, ops).accounts && s.acknowledgement.Some?
    ensures var db := Run(EMPTY, ops);
      var (after, answer) := RunSnapshot(db, s, at, now, basisPoints);
      && (answer == Applied <==> Acceptable(db, s, basisPoints))
      && (answer != Applied ==> after == db)
  {
    EveryRunKeepsInv(ops);
    SnapshotDoes(Run(EMPTY, ops), s, at, now, basisPoints);
  }

  // ---------- A seeded program ----------

  /** A seeded program has its limit from one ledger entry, nothing reserved and a verified position. */
  lemma SeededProgram(p: string, organisation: string, currency: string, creditLimit: int, now: Time)
    requires 0 <= creditLimit <= INT64_MAX
    ensures var db := Run(EMPTY, [Seed(p, organisation, currency, creditLimit, now)]);
      && p in db.accounts && db.requests == map[] && db.processed == []
      && db.accounts[p] == Account(
           Program(organisation, Position(currency, creditLimit, 0, 0, 2, None, false, true), 0, None, None, now),
           [LedgerRow(PendingEntry(creditLimit, Limit, LimitChange, None, "seed", "seed-limit-change"), 1, now)], [], [])
  {
    var op := Seed(p, organisation, currency, creditLimit, now);
    var entry := PendingEntry(creditLimit, Limit, LimitChange, None, "seed", "seed-limit-change");
    var a := NewProgram(organisation, currency, now);
    OneEntry(entry);
    assert Batch(a.program.position, [entry]) == [entry];
    assert [op][..0] == [] && Run(EMPTY, []) == EMPTY;
  }

  /** A seeded program takes any reservation in its own currency that its limit allows, and no larger one. */
  lemma SeededProgramReserves(c: Command, organisation: string, currency: string, creditLimit: int, now: Time, later: Time)
    requires 0 <= creditLimit <= INT64_MAX && c.action.ReserveAction? && c.action.currency == currency && Validated(c)
    ensures var db := Run(EMPTY, [Seed(c.programId, organisation, currency, creditLimit, now)]);
      RunRequest(db, c, None, later).1.Created? <==> c.action.amount <= creditLimit
  {
    SeededProgram(c.programId, organisation, currency, creditLimit, now);
    ReservedIff([Seed(c.programId, organisation, currency, creditLimit, now)], c, None, later);
  }

  /** It takes a first snapshot in its currency whose reserved amount the magnitude guard admits, and no other. */
  lemma SeededProgramReconciles(s: Snapshot, organisation: string, creditLimit: int, now: Time, at: Coordinates, later: Time, basisPoints: int)
    requires 0 <= creditLimit <= INT64_MAX && Parsed(s) && s.acknowledgement.Some?
    ensures var db := Run(EMPTY, [Seed(s.programId, organisation, s.currency, creditLimit, now)]);
      RunSnapshot(db, s, at, later, basisPoints).1 == Applied <==> s.reserved * 10_000 <= basisPoints * creditLimit
  {
    var ops := [Seed(s.programId, organisation, s.currency, creditLimit, now)];
    SeededProgram(s.programId, organisation, s.currency, creditLimit, now);
    SnapshotAppliedIff(ops, s, at, later, basisPoints);
    assert Mark(s.acknowledgement.value, s.version, []) == [];
  }
}
