/** How long a request can be replayed: exactly until a retention sweep passes the time it was recorded. */
module Retention {
  import opened Wrappers
  import opened Arithmetic
  import opened Domain
  import opened Policies
  import opened Tables
  import opened Runs
  import opened Evolution
  import opened Guarantees

  /** Some sweep of the run had a cutoff after `t`. */
  predicate SweptPast(ops: seq<Op>, t: Time) {
    exists k :: 0 <= k < |ops| && ops[k].Sweep? && t < ops[k].cutoff
  }

  lemma SweptPastLast(ops: seq<Op>, t: Time)
    requires ops != []
    ensures var n := |ops| - 1;
      SweptPast(ops, t) <==> SweptPast(ops[..n], t) || (ops[n].Sweep? && t < ops[n].cutoff)
  {
    var n := |ops| - 1;
    assert forall k :: 0 <= k < n ==> ops[..n][k] == ops[k];
  }

  /** A record that is there changes only by a sweep, and then only to expire. */
  lemma RecordAfterStep(db: Db, op: Op, key: (string, string))
    requires key in db.requests && !db.requests[key].state.Pending?
    ensures var r := db.requests[key];
      key in Step(db, op).requests
      && Step(db, op).requests[key] ==
        if op.Sweep? && r.state.Complete? && r.recordedAt < op.cutoff
        then RequestRecord(r.operation, r.fingerprint, Expired, r.recordedAt) else r
  {
    match op
    case Request(c, rate, now) =>
      if c.programId in db.accounts { ConcludeKeepsRecord(db, c, WorkOf(db.accounts[c.programId], c, rate, now), now, key); }
    case DeliverEvent(e, at, now) => EventKeepsRequests(db, e, at, now);
    case DeliverSnapshot(s, at, now, basisPoints) => SnapshotKeepsRequests(db, s, at, now, basisPoints);
    case _ =>
  }

  lemma ConcludeKeepsRecord(db: Db, c: Command, work: Work, now: Time, key: (string, string))
    requires key in db.requests
    ensures key in Conclude(db, c, work, now).0.requests && Conclude(db, c, work, now).0.requests[key] == db.requests[key]
  {
  }

  lemma EventKeepsRequests(db: Db, e: CapacityEvent, at: Coordinates, now: Time)
    ensures RunEvent(db, e, at, now).0.requests == db.requests
  {
  }

  lemma SnapshotKeepsRequests(db: Db, s: Snapshot, at: Coordinates, now: Time, basisPoints: int)
    ensures RunSnapshot(db, s, at, now, basisPoints).0.requests == db.requests
  {
  }

  /** A completed record after any run: expired if a sweep has passed it, untouched otherwise. */
  lemma {:induction false} RecordAfterRun(db: Db, ops: seq<Op>, key: (string, string))
    requires key in db.requests && db.requests[key].state.Complete?
    ensures var r := db.requests[key];
      key in Run(db, ops).requests
      && Run(db, ops).requests[key] ==
        if SweptPast(ops, r.recordedAt) then RequestRecord(r.operation, r.fingerprint, Expired, r.recordedAt) else r
  {
    hide Step, SweptPast;
    if ops == [] {
      NotSweptYet(db.requests[key].recordedAt);
    } else {
      RecordAfterRun(db, ops[..|ops| - 1], key);
      RecordAfterStep(Run(db, ops[..|ops| - 1]), ops[|ops| - 1], key);
      SweptPastLast(ops, db.requests[key].recordedAt);
    }
  }

  lemma NotSweptYet(t: Time)
    ensures !SweptPast([], t)
  {
  }

  /** The same request again: only the actor and the correlation may differ. */
  predicate SameRequest(c: Command, d: Command) {
    && d.organisationId == c.organisationId && d.requestId == c.requestId
    && d.programId == c.programId && d.invoiceId == c.invoiceId && d.action == c.action
  }

  /**
   * A request carried out at `now` in a reachable state and made again after any run changes nothing. It is
   * answered with the first outcome, if and only if no sweep of the run had a cutoff after `now`; otherwise
   * it is told that it has expired.
   */
  lemma {:induction false} ReplayedUntilSwept(before: seq<Op>, c: Command, rate: Option<ScaledRate>, now: Time, ops: seq<Op>,
                                              d: Command, rate2: Option<ScaledRate>, later: Time)
    requires AllWellFormed(before) && AllWellFormed(ops) && SameRequest(c, d)
    requires RunRequest(Run(EMPTY, before), c, rate, now).1.Created?
    ensures var (first, answer) := RunRequest(Run(EMPTY, before), c, rate, now);
      RunRequest(Run(first, ops), d, rate2, later) ==
        (Run(first, ops),
         if exists k :: 0 <= k < |ops| && ops[k].Sweep? && now < ops[k].cutoff then Refused(IdempotencyExpired)
         else Replayed(answer.body))
  {
    hide Run, RunRequest, Inv, Evolves;
    var db := Run(EMPTY, before);
    var first := RunRequest(db, c, rate, now).0;
    EveryRunKeepsInv(before);
    RequestKeepsInv(db, c, rate, now);
    CreatedRecords(db, c, rate, now);
    RecordAfterRun(first, ops, KeyOf(c));
    ProgramIsKept(db, c, rate, now, ops);
    OneEffectPerKey(db, c, rate, now, ops, d, rate2, later);
    assert Fingerprint(d) == Fingerprint(c);
  }

  lemma ProgramIsKept(db: Db, c: Command, rate: Option<ScaledRate>, now: Time, ops: seq<Op>)
    requires Inv(db) && AllWellFormed(ops) && RunRequest(db, c, rate, now).1.Created?
    ensures c.programId in Run(RunRequest(db, c, rate, now).0, ops).accounts
  {
    RequestKeepsInv(db, c, rate, now);
    RunEvolves(RunRequest(db, c, rate, now).0, ops);
    ProgramsAreKept(RunRequest(db, c, rate, now).0, Run(RunRequest(db, c, rate, now).0, ops));
  }
}
