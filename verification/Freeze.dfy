/** While a program's position is unverified, requests can move nothing. */
module Freeze {
  import opened Wrappers
  import opened Arithmetic
  import opened Domain
  import opened Policies
  import opened Tables
  import opened Ledger
  import opened Book
  import opened Runs
  import opened Evolution

  predicate SameHoldings(a: seq<ReservationRow>, b: seq<ReservationRow>) {
    |a| == |b| && forall k :: 0 <= k < |a| ==>
      && b[k].invoiceId == a[k].invoiceId && b[k].status == a[k].status
      && b[k].outstandingInvoice == a[k].outstandingInvoice && b[k].outstandingReserved == a[k].outstandingReserved
  }

  /** Still unverified, with the same LOCAL and the same holdings. */
  predicate Frozen(a: Account, b: Account) {
    && !b.program.position.positionVerified
    && b.program.position.localReserved == a.program.position.localReserved
    && SameHoldings(a.reservations, b.reservations)
  }

  predicate Unverified(db: Db, p: string) {
    p in db.accounts && !db.accounts[p].program.position.positionVerified
  }

  predicate AppliesSnapshotTo(db: Db, op: Op, p: string) {
    op.DeliverSnapshot? && op.s.programId == p && RunSnapshot(db, op.s, op.at, op.now, op.basisPoints).1 == Applied
  }

  lemma WorkIsRefused(a: Account, c: Command, rate: Option<ScaledRate>, now: Time)
    requires !a.program.position.positionVerified
    ensures WorkOf(a, c, rate, now).Refuses?
    ensures WorkOf(a, c, rate, now).code == PositionUnverified || WorkOf(a, c, rate, now).code == DuplicateInvoice
  {
  }

  lemma EventFreezes(a: Account, e: CapacityEvent, at: Coordinates, now: Time)
    requires !a.program.position.positionVerified && EventWork(a, e, at, now).Success?
    ensures Frozen(a, EventWork(a, e, at, now).value)
  {
    OneEntry(EventEntry(e, a.program.position.creditLimit));
  }

  lemma RequestFreezes(db: Db, c: Command, rate: Option<ScaledRate>, now: Time, p: string)
    requires Unverified(db, p)
    ensures var after := RunRequest(db, c, rate, now).0;
      p in after.accounts && Frozen(db.accounts[p], after.accounts[p])
  {
    if c.programId in db.accounts {
      if c.programId == p { WorkIsRefused(db.accounts[p], c, rate, now); }
      ConcludeTouchesOne(db, c, WorkOf(db.accounts[c.programId], c, rate, now), now, p);
    }
  }

  lemma ConcludeTouchesOne(db: Db, c: Command, work: Work, now: Time, p: string)
    requires p in db.accounts && (c.programId == p ==> work.Refuses?)
    ensures p in Conclude(db, c, work, now).0.accounts && Conclude(db, c, work, now).0.accounts[p] == db.accounts[p]
  {
  }

  lemma DeliveryFreezes(db: Db, e: CapacityEvent, at: Coordinates, now: Time, p: string)
    requires Unverified(db, p)
    ensures var after := RunEvent(db, e, at, now).0;
      p in after.accounts && Frozen(db.accounts[p], after.accounts[p])
  {
    if e.programId == p && EventWork(db.accounts[p], e, at, now).Success? {
      EventFreezes(db.accounts[p], e, at, now);
    }
  }

  lemma SnapshotElsewhere(db: Db, s: Snapshot, at: Coordinates, now: Time, basisPoints: int, p: string)
    requires p in db.accounts
    requires s.programId == p ==> RunSnapshot(db, s, at, now, basisPoints).1 != Applied
    ensures var after := RunSnapshot(db, s, at, now, basisPoints).0;
      p in after.accounts && after.accounts[p] == db.accounts[p]
  {
  }

  lemma JobFreezes(db: Db, op: Op, p: string)
    requires Unverified(db, p) && IsJob(op)
    ensures p in Step(db, op).accounts && Frozen(db.accounts[p], Step(db, op).accounts[p])
  {
  }

  lemma StepFreezes(db: Db, op: Op, p: string)
    requires Unverified(db, p) && !AppliesSnapshotTo(db, op, p)
    ensures p in Step(db, op).accounts && Frozen(db.accounts[p], Step(db, op).accounts[p])
  {
    match op
    case Request(c, rate, now) => RequestFreezes(db, c, rate, now, p);
    case DeliverEvent(e, at, now) => DeliveryFreezes(db, e, at, now, p);
    case DeliverSnapshot(s, at, now, basisPoints) => SnapshotElsewhere(db, s, at, now, basisPoints, p);
    case _ => JobFreezes(db, op, p);
  }

  predicate NoSnapshotApplied(db: Db, ops: seq<Op>, p: string) {
    forall k :: 0 <= k < |ops| ==> !AppliesSnapshotTo(Run(db, ops[..k]), ops[k], p)
  }

  /**
   * From an unverified program on, and until a snapshot is applied to it, no run of requests, events,
   * sweeps and jobs moves LOCAL or any reservation's outstanding amounts or status.
   */
  lemma {:induction false} UnverifiedIsFrozen(db: Db, ops: seq<Op>, p: string)
    requires Unverified(db, p) && NoSnapshotApplied(db, ops, p)
    ensures p in Run(db, ops).accounts && Frozen(db.accounts[p], Run(db, ops).accounts[p])
  {
    if ops != [] {
      var n := |ops| - 1;
      assert forall k :: 0 <= k < n ==> ops[..n][..k] == ops[..k];
      UnverifiedIsFrozen(db, ops[..n], p);
      StepFreezes(Run(db, ops[..n]), ops[n], p);
    }
  }

  /** Earlier outcomes still replay: the answer to a completed request does not depend on verification. */
  lemma CompletedStillReplays(db: Db, c: Command, rate: Option<ScaledRate>, now: Time)
    requires Unverified(db, c.programId)
    ensures RunRequest(db, c, rate, now).0 == db
    ensures RunRequest(db, c, rate, now).1.Replayed? <==>
      && KeyOf(c) in db.requests && db.requests[KeyOf(c)].state.Complete?
      && db.requests[KeyOf(c)].operation == OperationOf(c) && db.requests[KeyOf(c)].fingerprint == Fingerprint(c)
    ensures RunRequest(db, c, rate, now).1.Replayed? ==>
      RunRequest(db, c, rate, now).1.body == db.requests[KeyOf(c)].state.outcome
  {
  }
}
