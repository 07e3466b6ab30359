/** What the content fingerprint of a request tells apart (src/capacity/application/idempotency.service.ts). */
module Fingerprints {
  import opened Wrappers
  import opened Arithmetic
  import opened Decimal
  import opened Domain
  import opened Tables
  import opened Runs
  import opened Guarantees
  import opened Outcomes

  predicate NoBar(s: string) {
    '|' !in s
  }

  /** What follows a separator and holds none cannot reach back over another one. */
  lemma LastBarIsLast(a: string, x: string, b: string, y: string)
    requires a + "|" + x == b + "|" + y && NoBar(x)
    ensures |b| <= |a|
  {
    var s := a + "|" + x;
    assert forall k :: |a| < k < |s| ==> s[k] == x[k - |a| - 1];
    assert (b + "|" + y)[|b|] == '|';
  }

  lemma FirstBarIsFirst(x: string, a: string, y: string, b: string)
    requires x + "|" + a == y + "|" + b && NoBar(x)
    ensures |x| <= |y|
  {
    var s := x + "|" + a;
    assert forall k :: 0 <= k < |x| ==> s[k] == x[k];
    assert (y + "|" + b)[|y|] == '|';
  }

  lemma SplitAtLastBar(a: string, x: string, b: string, y: string)
    requires a + "|" + x == b + "|" + y && NoBar(x) && NoBar(y)
    ensures a == b && x == y
  {
    LastBarIsLast(a, x, b, y);
    LastBarIsLast(b, y, a, x);
    assert a == (a + "|" + x)[..|a|] && b == (b + "|" + y)[..|b|];
    assert x == (a + "|" + x)[|a| + 1..] && y == (b + "|" + y)[|b| + 1..];
  }

  lemma SplitAtFirstBar(x: string, a: string, y: string, b: string)
    requires x + "|" + a == y + "|" + b && NoBar(x) && NoBar(y)
    ensures x == y && a == b
  {
    FirstBarIsFirst(x, a, y, b);
    FirstBarIsFirst(y, b, x, a);
    assert x == (x + "|" + a)[..|x|] && y == (y + "|" + b)[..|y|];
    assert a == (x + "|" + a)[|x| + 1..] && b == (y + "|" + b)[|y| + 1..];
  }

  lemma AmountTextIsPlain(m: int)
    ensures NoBar(ToDecimalString(m, 0))
  {
  }

  /** Different amounts have different decimal texts, however large. */
  lemma AmountTextIsInjective(m: int, n: int)
    requires ToDecimalString(m, 0) == ToDecimalString(n, 0)
    ensures m == n
  {
    var p := RenderedParts(m, 0);
    var q := RenderedParts(n, 0);
    assert p.whole + p.fraction == NatToString(Abs(m)) && q.whole + q.fraction == NatToString(Abs(n));
    NatToStringReadsBack(Abs(m));
    NatToStringReadsBack(Abs(n));
  }

  function AmountOf(c: Command): int
    requires !c.action.CancelAction?
  {
    match c.action
    case ReserveAction(amount, _) => amount
    case ReleaseAction(amount, _) => amount
  }

  function CurrencyOf(c: Command): string
    requires !c.action.CancelAction?
  {
    match c.action
    case ReserveAction(_, currency) => currency
    case ReleaseAction(_, currency) => currency
  }

  /**
   * Reservations and releases with the same fingerprint ask for the same: program, invoice, amount
   * and currency. The invoice id may contain the separator; program ids and currencies do not.
   */
  lemma MoneyFingerprintIsInjective(c: Command, d: Command)
    requires !c.action.CancelAction? && !d.action.CancelAction?
    requires NoBar(c.programId) && NoBar(d.programId) && NoBar(CurrencyOf(c)) && NoBar(CurrencyOf(d))
    requires Fingerprint(c) == Fingerprint(d)
    ensures c.programId == d.programId && c.invoiceId == d.invoiceId
    ensures AmountOf(c) == AmountOf(d) && CurrencyOf(c) == CurrencyOf(d)
  {
    var m, n := ToDecimalString(AmountOf(c), 0), ToDecimalString(AmountOf(d), 0);
    AmountTextIsPlain(AmountOf(c));
    AmountTextIsPlain(AmountOf(d));
    assert Fingerprint(c) == (c.programId + "|" + c.invoiceId + "|" + m) + "|" + CurrencyOf(c);
    assert Fingerprint(d) == (d.programId + "|" + d.invoiceId + "|" + n) + "|" + CurrencyOf(d);
    SplitAtLastBar(c.programId + "|" + c.invoiceId + "|" + m, CurrencyOf(c), d.programId + "|" + d.invoiceId + "|" + n, CurrencyOf(d));
    SplitAtLastBar(c.programId + "|" + c.invoiceId, m, d.programId + "|" + d.invoiceId, n);
    SplitAtFirstBar(c.programId, c.invoiceId, d.programId, d.invoiceId);
    AmountTextIsInjective(AmountOf(c), AmountOf(d));
  }

  function NoteText(c: Command): string
    requires c.action.CancelAction?
  {
    if c.action.note.Some? then c.action.note.value else ""
  }

  // ---------- Cancellations ----------

  predicate IsReason(reason: string) {
    reason == "CANCELLED" || reason == "WRITTEN_OFF"
  }

  /** A cancellation as validation lets it through. */
  predicate Cancels(c: Command) {
    c.action.CancelAction? && NoBar(c.programId) && c.invoiceId != "" && IsReason(c.action.reason)
  }

  function Rest(c: Command): string
    requires c.action.CancelAction?
  {
    c.action.reason + "|" + NoteText(c)
  }

  lemma CancelText(c: Command)
    requires c.action.CancelAction?
    ensures Fingerprint(c) == c.programId + "|" + (c.invoiceId + "|" + Rest(c))
  {
  }

  /** The longer id is the shorter one, a separator and the other's reason, and perhaps more after another separator. */
  predicate Overlaps(c: Command, d: Command, more: Option<string>)
    requires c.action.CancelAction? && d.action.CancelAction?
  {
    match more
    case None => c.invoiceId == d.invoiceId + "|" + d.action.reason && NoteText(d) == Rest(c)
    case Some(m) => c.invoiceId == d.invoiceId + "|" + d.action.reason + "|" + m && NoteText(d) == m + "|" + Rest(c)
  }

  lemma OverlapCollides(c: Command, d: Command, more: Option<string>)
    requires c.action.CancelAction? && d.action.CancelAction? && c.programId == d.programId && Overlaps(c, d, more)
    ensures Fingerprint(c) == Fingerprint(d)
  {
    CancelText(c);
    CancelText(d);
    match more
    case None => assert c.invoiceId + "|" + Rest(c) == d.invoiceId + "|" + Rest(d);
    case Some(m) => assert c.invoiceId + "|" + Rest(c) == d.invoiceId + "|" + Rest(d);
  }

  /** Equal texts split where the shorter id ends. */
  lemma LongerHoldsShorter(longer: string, a: string, shorter: string, b: string) returns (x: string)
    requires longer + "|" + a == shorter + "|" + b && |shorter| < |longer|
    ensures longer == shorter + "|" + x && x + "|" + a == b
  {
    var s := longer + "|" + a;
    x := longer[|shorter| + 1..];
    assert s[..|shorter|] == shorter && s[|shorter|] == '|' && s[|shorter| + 1..] == b;
    assert longer == s[..|longer|];
  }

  lemma CollisionOverlaps(c: Command, d: Command) returns (more: Option<string>)
    requires c.action.CancelAction? && d.action.CancelAction? && c.programId == d.programId
    requires NoBar(d.action.reason) && |d.invoiceId| < |c.invoiceId| && Fingerprint(c) == Fingerprint(d)
    ensures Overlaps(c, d, more)
  {
    CancelText(c);
    CancelText(d);
    SamePrefix(c.programId, c.invoiceId + "|" + Rest(c), d.invoiceId + "|" + Rest(d));
    var x := LongerHoldsShorter(c.invoiceId, Rest(c), d.invoiceId, Rest(d));
    var i := IndexOf(x, '|');
    if i == |x| {
      SplitAtFirstBar(x, Rest(c), d.action.reason, NoteText(d));
      more := None;
    } else {
      var y, m := x[..i], x[i + 1..];
      assert x == y + "|" + m && x + "|" + Rest(c) == y + "|" + (m + "|" + Rest(c));
      SplitAtFirstBar(y, m + "|" + Rest(c), d.action.reason, NoteText(d));
      more := Some(m);
    }
  }

  lemma SamePrefix(p: string, a: string, b: string)
    requires p + "|" + a == p + "|" + b
    ensures a == b
  {
    assert a == (p + "|" + a)[|p| + 1..] && b == (p + "|" + b)[|p| + 1..];
  }

  /**
   * Two cancellations in one program, of invoices with ids of different length and with reasons that hold
   * no separator, have the same fingerprint exactly when the longer id continues the shorter one by the
   * other's reason and the shorter one's note makes up for what follows.
   */
  lemma CancelFingerprintsCollideIff(c: Command, d: Command)
    requires c.action.CancelAction? && d.action.CancelAction? && c.programId == d.programId
    requires NoBar(c.action.reason) && NoBar(d.action.reason) && |d.invoiceId| < |c.invoiceId|
    ensures Fingerprint(c) == Fingerprint(d) <==> exists more :: Overlaps(c, d, more)
  {
    if Fingerprint(c) == Fingerprint(d) {
      var more := CollisionOverlaps(c, d);
    }
    if more :| Overlaps(c, d, more) { OverlapCollides(c, d, more); }
  }

  /** Of invoices with ids of the same length, the fingerprint determines everything. */
  lemma SameLengthIsInjective(c: Command, d: Command)
    requires c.action.CancelAction? && d.action.CancelAction? && NoBar(c.programId) && NoBar(d.programId)
    requires NoBar(c.action.reason) && NoBar(d.action.reason)
    requires |c.invoiceId| == |d.invoiceId| && Fingerprint(c) == Fingerprint(d)
    ensures c.programId == d.programId && c.invoiceId == d.invoiceId
    ensures c.action.reason == d.action.reason && NoteText(c) == NoteText(d)
  {
    var s, t := c.invoiceId + "|" + Rest(c), d.invoiceId + "|" + Rest(d);
    CancelText(c);
    CancelText(d);
    SplitAtFirstBar(c.programId, s, d.programId, t);
    assert c.invoiceId == s[..|c.invoiceId|] && d.invoiceId == t[..|c.invoiceId|];
    assert Rest(c) == s[|c.invoiceId| + 1..] && Rest(d) == t[|c.invoiceId| + 1..];
    SplitAtFirstBar(c.action.reason, NoteText(c), d.action.reason, NoteText(d));
  }

  // ---------- Which invoice ids can be confused ----------

  /** From the n-th character on the id reads as a separator and a reason, ended by a separator or the end. */
  predicate ReasonAt(id: string, n: nat, reason: string) {
    0 < n < |id| && id[n] == '|' && (id[n + 1..] == reason || reason + "|" <= id[n + 1..])
  }

  ghost predicate HoldsReason(id: string) {
    exists n, reason :: IsReason(reason) && ReasonAt(id, n, reason)
  }

  /** `c` cancels the invoice, `d` one with a shorter id, and they have the same fingerprint. */
  predicate Confuses(c: Command, d: Command, id: string) {
    && Cancels(c) && Cancels(d) && c.programId == d.programId && c.invoiceId == id && |d.invoiceId| < |id|
    && Fingerprint(c) == Fingerprint(d)
  }

  lemma ReasonsHoldNoBar(reason: string)
    requires IsReason(reason)
    ensures NoBar(reason)
  {
  }

  lemma ConfusedHoldsReason(c: Command, d: Command, id: string)
    requires Confuses(c, d, id)
    ensures HoldsReason(id)
  {
    ReasonsHoldNoBar(d.action.reason);
    var more := CollisionOverlaps(c, d);
    var n := |d.invoiceId|;
    match more {
      case None => assert id[n + 1..] == d.action.reason;
      case Some(m) => assert id[n + 1..] == d.action.reason + "|" + m;
    }
    assert ReasonAt(id, n, d.action.reason);
  }

  lemma HeldReasonConfuses(id: string, n: nat, reason: string, c: Command) returns (d: Command)
    requires ReasonAt(id, n, reason) && IsReason(reason) && Cancels(c) && c.invoiceId == id
    ensures Confuses(c, d, id) && d.invoiceId == id[..n] && KeyOf(d) == KeyOf(c)
  {
    var tail, more := id[n + 1..], None;
    assert id == id[..n] + "|" + tail;
    if tail != reason {
      more := Some(tail[|reason| + 1..]);
      assert tail == reason + "|" + more.value;
    }
    var note := if more.None? then Rest(c) else more.value + "|" + Rest(c);
    d := c.(invoiceId := id[..n], action := CancelAction(reason, Some(note)));
    assert more.Some? ==> id == d.invoiceId + "|" + reason + "|" + more.value;
    OverlapCollides(c, d, more);
  }

  /**
   * An invoice id can be confused with a shorter one exactly when it holds a separator followed by a
   * whole reason; then every cancellation of it is matched by one of the shorter id.
   */
  lemma ConfusableIff(id: string, c: Command)
    requires Cancels(c) && c.invoiceId == id
    ensures HoldsReason(id) <==> exists d :: Confuses(c, d, id)
  {
    if n, reason :| IsReason(reason) && ReasonAt(id, n, reason) {
      var d := HeldReasonConfuses(id, n, reason, c);
    }
    if d :| Confuses(c, d, id) { ConfusedHoldsReason(c, d, id); }
  }

  /** So the fingerprint determines the cancellation whenever neither invoice id holds a reason. */
  lemma CancelFingerprintIsInjective(c: Command, d: Command)
    requires Cancels(c) && Cancels(d) && Fingerprint(c) == Fingerprint(d)
    requires !HoldsReason(c.invoiceId) && !HoldsReason(d.invoiceId)
    ensures c.programId == d.programId && c.invoiceId == d.invoiceId
    ensures c.action.reason == d.action.reason && NoteText(c) == NoteText(d)
  {
    CancelText(c);
    CancelText(d);
    SplitAtFirstBar(c.programId, c.invoiceId + "|" + Rest(c), d.programId, d.invoiceId + "|" + Rest(d));
    NotLonger(c, d);
    NotLonger(d, c);
    SameLengthIsInjective(c, d);
  }

  lemma NotLonger(c: Command, d: Command)
    requires Cancels(c) && Cancels(d) && c.programId == d.programId && Fingerprint(c) == Fingerprint(d)
    requires !HoldsReason(c.invoiceId)
    ensures |c.invoiceId| <= |d.invoiceId|
  {
    if |d.invoiceId| < |c.invoiceId| {
      ConfusedHoldsReason(c, d, c.invoiceId);
    }
  }

  // ---------- What a collision does ----------

  /** Once the first of two cancellations with one fingerprint and key is carried out, the second is answered with its outcome. */
  lemma CollisionReplays(db: Db, c: Command, d: Command, now: Time, later: Time)
    requires Inv(db) && RunRequest(db, c, None, now).1.Created?
    requires c.action.CancelAction? && d.action.CancelAction? && c.programId == d.programId
    requires KeyOf(c) == KeyOf(d) && Fingerprint(c) == Fingerprint(d)
    ensures RunRequest(RunRequest(db, c, None, now).0, d, None, later).1 == Replayed(RunRequest(db, c, None, now).1.body)
  {
    CreatedRecords(db, c, None, now);
    OneEffectPerKey(db, c, None, now, [], d, None, later);
  }

  /** The seed, and the reservation of the invoice that is then cancelled. */
  function ReservedRun(r: Command, organisation: string, currency: string, creditLimit: int): seq<Op> {
    [Seed(r.programId, organisation, currency, creditLimit, 0), Request(r, None, 1)]
  }

  lemma ReservedState(r: Command, organisation: string, currency: string, creditLimit: int)
    requires 0 <= creditLimit <= INT64_MAX && r.action.ReserveAction? && r.action.currency == currency
    requires 0 < r.action.amount <= creditLimit
    ensures var db := Run(EMPTY, ReservedRun(r, organisation, currency, creditLimit));
      && r.programId in db.accounts && db.requests.Keys == {KeyOf(r)}
      && var a := db.accounts[r.programId];
         && a.program.position.positionVerified && |a.reservations| == 1
         && a.reservations[0].invoiceId == r.invoiceId && a.reservations[0].status == Active
  {
    hide RunRequest, RunSeed;
    var seed := [Seed(r.programId, organisation, currency, creditLimit, 0)];
    var before := Run(EMPTY, seed);
    SeededProgram(r.programId, organisation, currency, creditLimit, 0);
    SeededProgramReserves(r, organisation, currency, creditLimit, 0, 1);
    ReservedIff(seed, r, None, 1);
    ReservedRow(before, r);
    assert ReservedRun(r, organisation, currency, creditLimit) == seed + [Request(r, None, 1)];
    assert ReservedRun(r, organisation, currency, creditLimit)[..1] == seed;
    assert Run(EMPTY, ReservedRun(r, organisation, currency, creditLimit)) == RunRequest(before, r, None, 1).0;
  }

  lemma ReservedRow(db: Db, r: Command)
    requires r.action.ReserveAction? && RunRequest(db, r, None, 1).1.Created?
    ensures var row := RunRequest(db, r, None, 1).1.body.reservation;
      && row.invoiceId == r.invoiceId && row.status == Active
      && r.programId in db.accounts && r.programId in RunRequest(db, r, None, 1).0.accounts
      && RunRequest(db, r, None, 1).0.accounts[r.programId].program.position.positionVerified
         == db.accounts[r.programId].program.position.positionVerified
    ensures RunRequest(db, r, None, 1).0.requests.Keys == db.requests.Keys + {KeyOf(r)}
  {
  }

  /**
   * The collision is reached: in a seeded program whose reserved invoice's id holds a reason, cancelling
   * it and then, under the same request id, cancelling the shorter id is answered by a replay of the
   * first cancellation, whose body is the other invoice's reservation.
   */
  lemma CollisionIsReached(r: Command, c: Command, organisation: string, currency: string, creditLimit: int, n: nat, reason: string)
    returns (d: Command)
    requires 0 <= creditLimit <= INT64_MAX && r.action.ReserveAction? && r.action.currency == currency
    requires 0 < r.action.amount <= creditLimit
    requires Cancels(c) && c.programId == r.programId && c.invoiceId == r.invoiceId && KeyOf(c) != KeyOf(r)
    requires IsReason(reason) && ReasonAt(c.invoiceId, n, reason)
    ensures var db := Run(EMPTY, ReservedRun(r, organisation, currency, creditLimit));
      var (cancelled, first) := RunRequest(db, c, None, 2);
      && d.invoiceId == c.invoiceId[..n] && KeyOf(d) == KeyOf(c)
      && first.Created? && first.body.reservation.invoiceId == c.invoiceId
      && RunRequest(cancelled, d, None, 3).1 == Replayed(first.body)
  {
    var ops := ReservedRun(r, organisation, currency, creditLimit);
    d := HeldReasonConfuses(c.invoiceId, n, reason, c);
    ReservedState(r, organisation, currency, creditLimit);
    EveryRunKeepsInv(ops);
    CancelledIff(ops, c, 0, 2);
    CancelledBody(Run(EMPTY, ops), c);
    CollisionReplays(Run(EMPTY, ops), c, d, 2, 3);
  }

  lemma CancelledBody(db: Db, c: Command)
    requires c.action.CancelAction? && RunRequest(db, c, None, 2).1.Created?
    ensures RunRequest(db, c, None, 2).1.body.reservation.invoiceId == c.invoiceId
  {
  }

  /** Such an invoice id, concretely. */
  lemma AnIdHoldingAReason()
    ensures ReasonAt("A|CANCELLED", 1, "CANCELLED") && !HoldsReason("INV|7")
  {
    assert "A|CANCELLED"[2..] == "CANCELLED";
    forall n: nat, reason | IsReason(reason) ensures !ReasonAt("INV|7", n, reason) {
      if 0 < n < 5 && "INV|7"[n] == '|' { assert "INV|7"[n + 1..] == "7"; }
    }
  }
}
