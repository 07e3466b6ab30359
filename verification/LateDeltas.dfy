/** Late booking and release events may arrive in any order. */
module LateDeltas {
  import opened Wrappers
  import opened Arithmetic
  import opened Domain
  import opened Policies
  import opened Tables
  import opened Ledger
  import opened Book
  import opened Runs
  import opened Evolution

  /** One delivery of an event, at its own place in the stream and at its own time. */
  datatype Delivery = Delivery(e: CapacityEvent, at: Coordinates, now: Time)

  function Deliver(db: Db, ds: seq<Delivery>): Db {
    if ds == [] then db
    else RunEvent(Deliver(db, ds[..|ds| - 1]), ds[|ds| - 1].e, ds[|ds| - 1].at, ds[|ds| - 1].now).0
  }

  /** Every delivery in turn commits an effect. */
  predicate AllCommit(db: Db, ds: seq<Delivery>) {
    ds == [] ||
    var before, d := Deliver(db, ds[..|ds| - 1]), ds[|ds| - 1];
    && AllCommit(db, ds[..|ds| - 1])
    && Commits(RunEvent(before, d.e, d.at, d.now).1)
  }

  function Events(ds: seq<Delivery>): seq<CapacityEvent> {
    seq(|ds|, k requires 0 <= k < |ds| => ds[k].e)
  }

  predicate IsDelta(e: CapacityEvent, p: string) {
    e.programId == p && !e.eventType.LimitChanged?
  }

  predicate AllDeltas(ds: seq<Delivery>, p: string) {
    forall k :: 0 <= k < |ds| ==> IsDelta(ds[k].e, p)
  }

  // ---------- What a set of events does, without an order ----------

  /** What one event moves TREASURY by, given the reservations it might echo. */
  function Effect(rows: seq<ReservationRow>, e: CapacityEvent): int {
    if IsEcho(rows, e) then 0 else if e.eventType.ReservationBooked? then e.amount else -e.amount
  }

  function EffectSum(rows: seq<ReservationRow>, es: seq<CapacityEvent>): int {
    if es == [] then 0 else EffectSum(rows, es[..|es| - 1]) + Effect(rows, es[|es| - 1])
  }

  predicate Echoes(r: ReservationRow, e: CapacityEvent) {
    !e.eventType.LimitChanged? && Names(r, e.reference)
  }

  predicate EchoedBy(r: ReservationRow, es: seq<CapacityEvent>) {
    exists k :: 0 <= k < |es| && Echoes(r, es[k])
  }

  /** `t` is the newest of an earlier applied time and the events' effective times. */
  predicate IsNewest(before: Option<Time>, es: seq<CapacityEvent>, t: Option<Time>) {
    && (t == before || exists k :: 0 <= k < |es| && t == Some(es[k].effectiveAt))
    && (before.Some? ==> t.Some? && before.value <= t.value)
    && (forall k :: 0 <= k < |es| ==> t.Some? && es[k].effectiveAt <= t.value)
  }

  /** The account after the events `es`, as far as it does not depend on their order. */
  predicate After(a: Account, es: seq<CapacityEvent>, b: Account) {
    var p, q := a.program.position, b.program.position;
    && q.treasuryReserved == p.treasuryReserved + EffectSum(a.reservations, es)
    && q.localReserved == p.localReserved && q.creditLimit == p.creditLimit && q.currency == p.currency
    && IsNewest(a.program.appliedEffectiveAt, es, b.program.appliedEffectiveAt)
    && |b.reservations| == |a.reservations|
    && (forall k :: 0 <= k < |a.reservations| ==>
          && b.reservations[k].treasuryReference == a.reservations[k].treasuryReference
          && (b.reservations[k].acknowledged <==> a.reservations[k].acknowledged || EchoedBy(a.reservations[k], es)))
  }

  lemma EchoDependsOnReferences(a: seq<ReservationRow>, b: seq<ReservationRow>, e: CapacityEvent)
    requires |a| == |b| && forall k :: 0 <= k < |a| ==> b[k].treasuryReference == a[k].treasuryReference
    ensures IsEcho(a, e) <==> IsEcho(b, e)
  {
  }

  lemma EchoedByOneMore(r: ReservationRow, es: seq<CapacityEvent>, e: CapacityEvent)
    ensures EchoedBy(r, es + [e]) <==> EchoedBy(r, es) || Echoes(r, e)
  {
    if EchoedBy(r, es) {
      var k :| 0 <= k < |es| && Echoes(r, es[k]);
      assert (es + [e])[k] == es[k];
    }
    assert (es + [e])[|es|] == e;
  }

  lemma NewestOneMore(before: Option<Time>, es: seq<CapacityEvent>, t: Option<Time>, e: CapacityEvent)
    requires IsNewest(before, es, t)
    ensures IsNewest(before, es + [e], Latest(t, e.effectiveAt))
  {
    var more := es + [e];
    assert more[|es|] == e;
    assert forall k :: 0 <= k < |es| ==> more[k] == es[k];
    if t != before {
      var k :| 0 <= k < |es| && t == Some(es[k].effectiveAt);
      assert more[k] == es[k];
    }
  }

  /** What one delivered booking or release does to its account. */
  lemma OneDelta(a: Account, e: CapacityEvent, at: Coordinates, now: Time)
    requires !e.eventType.LimitChanged? && EventWork(a, e, at, now).Success?
    ensures var b := EventWork(a, e, at, now).value;
      var p, q := a.program.position, b.program.position;
      && q.treasuryReserved == p.treasuryReserved + Effect(a.reservations, e)
      && q.localReserved == p.localReserved && q.creditLimit == p.creditLimit && q.currency == p.currency
      && b.program.appliedEffectiveAt == Latest(a.program.appliedEffectiveAt, e.effectiveAt)
      && |b.reservations| == |a.reservations|
      && (forall k :: 0 <= k < |a.reservations| ==>
            && b.reservations[k].treasuryReference == a.reservations[k].treasuryReference
            && (b.reservations[k].acknowledged <==> a.reservations[k].acknowledged || Echoes(a.reservations[k], e)))
  {
    OneEntry(EventEntry(e, a.program.position.creditLimit));
  }

  lemma AfterOneMore(a: Account, es: seq<CapacityEvent>, b: Account, e: CapacityEvent, at: Coordinates, now: Time)
    requires After(a, es, b) && !e.eventType.LimitChanged? && EventWork(b, e, at, now).Success?
    ensures After(a, es + [e], EventWork(b, e, at, now).value)
  {
    OneDelta(b, e, at, now);
    EchoDependsOnReferences(a.reservations, b.reservations, e);
    NewestOneMore(a.program.appliedEffectiveAt, es, b.program.appliedEffectiveAt, e);
    assert (es + [e])[..|es|] == es;
    forall k | 0 <= k < |a.reservations|
      ensures Echoes(a.reservations[k], e) <==> Echoes(b.reservations[k], e)
      ensures EchoedBy(a.reservations[k], es + [e]) <==> EchoedBy(a.reservations[k], es) || Echoes(a.reservations[k], e)
    {
      EchoedByOneMore(a.reservations[k], es, e);
    }
  }

  predicate Commits(r: ApplyResult) {
    r == Applied || r == EchoSuppressed
  }

  lemma CommittedEvent(db: Db, d: Delivery)
    requires Commits(RunEvent(db, d.e, d.at, d.now).1)
    ensures d.e.programId in db.accounts && EventWork(db.accounts[d.e.programId], d.e, d.at, d.now).Success?
    ensures RunEvent(db, d.e, d.at, d.now).0.accounts
      == db.accounts[d.e.programId := EventWork(db.accounts[d.e.programId], d.e, d.at, d.now).value]
  {
  }

  lemma DeliverOneMore(a: Account, es: seq<CapacityEvent>, mid: Db, d: Delivery, p: string)
    requires p in mid.accounts && After(a, es, mid.accounts[p])
    requires IsDelta(d.e, p) && Commits(RunEvent(mid, d.e, d.at, d.now).1)
    ensures var after := RunEvent(mid, d.e, d.at, d.now).0;
      p in after.accounts && After(a, es + [d.e], after.accounts[p])
  {
    CommittedEvent(mid, d);
    AfterOneMore(a, es, mid.accounts[p], d.e, d.at, d.now);
  }

  lemma LastDelivery(db: Db, p: string, ds: seq<Delivery>)
    requires ds != [] && AllDeltas(ds, p) && AllCommit(db, ds)
    ensures var front, d := ds[..|ds| - 1], ds[|ds| - 1];
      && AllDeltas(front, p) && AllCommit(db, front) && Events(ds) == Events(front) + [d.e]
      && IsDelta(d.e, p) && Commits(RunEvent(Deliver(db, front), d.e, d.at, d.now).1)
      && Deliver(db, ds) == RunEvent(Deliver(db, front), d.e, d.at, d.now).0
  {
    hide RunEvent;
  }

  lemma {:induction false} DeliveriesAccumulate(db: Db, p: string, ds: seq<Delivery>)
    requires p in db.accounts && AllDeltas(ds, p) && AllCommit(db, ds)
    ensures p in Deliver(db, ds).accounts && After(db.accounts[p], Events(ds), Deliver(db, ds).accounts[p])
  {
    if ds != [] {
      hide After, AllDeltas, AllCommit, RunEvent, Deliver, Events, IsDelta, Commits;
      var n := |ds| - 1;
      LastDelivery(db, p, ds);
      DeliveriesAccumulate(db, p, ds[..n]);
      DeliverOneMore(db.accounts[p], Events(ds[..n]), Deliver(db, ds[..n]), ds[n], p);
    }
  }

  // ---------- Permutations ----------

  lemma EffectRemove(rows: seq<ReservationRow>, es: seq<CapacityEvent>, i: nat)
    requires i < |es|
    ensures EffectSum(rows, es) == EffectSum(rows, es[..i] + es[i + 1..]) + Effect(rows, es[i])
  {
    var n := |es| - 1;
    if i == n {
      assert es[..i] + es[i + 1..] == es[..n];
    } else {
      var rest := es[..i] + es[i + 1..];
      EffectRemove(rows, es[..n], i);
      assert rest[..|rest| - 1] == es[..n][..i] + es[..n][i + 1..] && rest[|rest| - 1] == es[n];
      assert EffectSum(rows, rest) == EffectSum(rows, rest[..|rest| - 1]) + Effect(rows, es[n]);
    }
  }

  lemma RemoveOne(xs: seq<CapacityEvent>, i: nat)
    requires i < |xs|
    ensures multiset(xs[..i] + xs[i + 1..]) == multiset(xs) - multiset{xs[i]}
  {
    assert xs == xs[..i] + [xs[i]] + xs[i + 1..];
    assert multiset(xs) == multiset(xs[..i]) + multiset{xs[i]} + multiset(xs[i + 1..]);
  }

  lemma RemoveLast(xs: seq<CapacityEvent>, ys: seq<CapacityEvent>) returns (i: nat)
    requires multiset(xs) == multiset(ys) && xs != []
    ensures i < |ys| && ys[i] == xs[|xs| - 1]
    ensures multiset(xs[..|xs| - 1]) == multiset(ys[..i] + ys[i + 1..])
  {
    var n := |xs| - 1;
    i := SameMembers(xs, ys, n);
    RemoveOne(xs, n);
    RemoveOne(ys, i);
    assert xs[..n] + xs[n + 1..] == xs[..n];
  }

  lemma {:induction false} EffectPermutes(rows: seq<ReservationRow>, xs: seq<CapacityEvent>, ys: seq<CapacityEvent>)
    requires multiset(xs) == multiset(ys)
    ensures EffectSum(rows, xs) == EffectSum(rows, ys)
  {
    if xs == [] {
      assert |multiset(ys)| == 0;
    } else {
      var i := RemoveLast(xs, ys);
      EffectPermutes(rows, xs[..|xs| - 1], ys[..i] + ys[i + 1..]);
      EffectRemove(rows, ys, i);
    }
  }

  lemma SameMembers(xs: seq<CapacityEvent>, ys: seq<CapacityEvent>, i: nat) returns (j: nat)
    requires multiset(xs) == multiset(ys) && i < |xs|
    ensures j < |ys| && ys[j] == xs[i]
  {
    assert xs[i] in multiset(ys);
    j :| 0 <= j < |ys| && ys[j] == xs[i];
  }

  lemma EchoedPermutes(r: ReservationRow, xs: seq<CapacityEvent>, ys: seq<CapacityEvent>)
    requires multiset(xs) == multiset(ys)
    ensures EchoedBy(r, xs) ==> EchoedBy(r, ys)
  {
    if EchoedBy(r, xs) {
      var i :| 0 <= i < |xs| && Echoes(r, xs[i]);
      var j := SameMembers(xs, ys, i);
    }
  }

  lemma NewestPermutes(before: Option<Time>, xs: seq<CapacityEvent>, ys: seq<CapacityEvent>, t: Option<Time>, u: Option<Time>)
    requires multiset(xs) == multiset(ys) && IsNewest(before, xs, t) && IsNewest(before, ys, u)
    ensures t.Some? ==> u.Some? && t.value <= u.value
  {
    if t != before {
      var i :| 0 <= i < |xs| && t == Some(xs[i].effectiveAt);
      var j := SameMembers(xs, ys, i);
    }
  }

  /** Equal in everything that the order of late deltas must not decide. */
  predicate SameOutcome(a: Account, b: Account) {
    var p, q := a.program.position, b.program.position;
    && p.treasuryReserved == q.treasuryReserved && p.localReserved == q.localReserved && p.creditLimit == q.creditLimit
    && (p.overLimitSince.Some? <==> q.overLimitSince.Some?)
    && a.program.appliedEffectiveAt == b.program.appliedEffectiveAt
    && |a.reservations| == |b.reservations|
    && (forall k :: 0 <= k < |a.reservations| ==> a.reservations[k].acknowledged == b.reservations[k].acknowledged)
  }

  lemma AfterPermutes(a: Account, xs: seq<CapacityEvent>, ys: seq<CapacityEvent>, b: Account, c: Account)
    requires multiset(xs) == multiset(ys) && After(a, xs, b) && After(a, ys, c) && LedgerInv(b) && LedgerInv(c)
    ensures SameOutcome(b, c)
  {
    EffectPermutes(a.reservations, xs, ys);
    NewestPermutes(a.program.appliedEffectiveAt, xs, ys, b.program.appliedEffectiveAt, c.program.appliedEffectiveAt);
    NewestPermutes(a.program.appliedEffectiveAt, ys, xs, c.program.appliedEffectiveAt, b.program.appliedEffectiveAt);
    forall k | 0 <= k < |a.reservations| ensures b.reservations[k].acknowledged == c.reservations[k].acknowledged {
      EchoedPermutes(a.reservations[k], xs, ys);
      EchoedPermutes(a.reservations[k], ys, xs);
    }
  }

  lemma {:induction false} DeliveriesKeepInv(db: Db, ds: seq<Delivery>)
    requires Inv(db)
    ensures Inv(Deliver(db, ds))
  {
    if ds != [] {
      var d := ds[|ds| - 1];
      DeliveriesKeepInv(db, ds[..|ds| - 1]);
      EventKeepsInv(Deliver(db, ds[..|ds| - 1]), d.e, d.at, d.now);
    }
  }

  /**
   * From any reachable database, two orders of the same bookings and releases in which every
   * delivery commits end with the same components, over-limit status, acknowledged flags and
   * applied time, which is the newest of all.
   */
  lemma {:induction false} LateDeltasCommute(ops: seq<Op>, p: string, xs: seq<Delivery>, ys: seq<Delivery>)
    requires AllWellFormed(ops) && p in Run(EMPTY, ops).accounts
    requires AllDeltas(xs, p) && AllDeltas(ys, p) && multiset(Events(xs)) == multiset(Events(ys))
    requires AllCommit(Run(EMPTY, ops), xs) && AllCommit(Run(EMPTY, ops), ys)
    ensures var db := Run(EMPTY, ops);
      && p in Deliver(db, xs).accounts && p in Deliver(db, ys).accounts
      && SameOutcome(Deliver(db, xs).accounts[p], Deliver(db, ys).accounts[p])
      && IsNewest(db.accounts[p].program.appliedEffectiveAt, Events(xs), Deliver(db, xs).accounts[p].program.appliedEffectiveAt)
  {
    var db := Run(EMPTY, ops);
    EveryRunKeepsInv(ops);
    DeliveriesKeepInv(db, xs);
    DeliveriesKeepInv(db, ys);
    DeliveriesAccumulate(db, p, xs);
    DeliveriesAccumulate(db, p, ys);
    AfterPermutes(db.accounts[p], Events(xs), Events(ys), Deliver(db, xs).accounts[p], Deliver(db, ys).accounts[p]);
  }
}
