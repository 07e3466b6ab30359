/**
 * The services statement by statement, on a database whose tables they update in place. Each
 * transaction is proved to commit exactly what its atomic step in Tables says, or nothing.
 */
module Services {
  import opened Wrappers
  import opened Arithmetic
  import opened Domain
  import opened Policies
  import opened Tables
  import opened Ledger
  import opened Book
  import opened Runs

  datatype Mismatch = Mismatch(programId: string, expected: int, actual: int)

  datatype LedgerMismatch = LedgerMismatch(programId: string, component: Component, ledgerSum: int, cached: int)

  function Cached(p: Position, c: Component): int {
    match c
    case Local => p.localReserved
    case Treasury => p.treasuryReserved
    case Limit => p.creditLimit
  }

  const COMPONENTS: seq<Component> := [Local, Treasury, Limit]

  /** The components checked before this one agree with their ledger sums. */
  predicate AgreesBefore(a: Account, c: Component) {
    exists j :: 0 <= j < |COMPONENTS| && COMPONENTS[j] == c
      && forall k :: 0 <= k < j ==> Delta(Entries(a.ledger), COMPONENTS[k]) == Cached(a.program.position, COMPONENTS[k])
  }

  /** The rows a SELECT ... FROM program ORDER BY id goes through: every program once. */
  predicate Lists(order: seq<string>, accounts: map<string, Account>) {
    && AllIn(order, accounts)
    && (forall p :: p in accounts ==> p in order)
    && (forall i, j :: 0 <= i < j < |order| ==> order[i] != order[j])
  }

  /** Sets the flags of one account, as the background jobs do. */
  function Flagged(a: Account, verified: bool, investigate: bool): Account {
    var p := a.program.position;
    a.(program := a.program.(position := p.(positionVerified := p.positionVerified && verified,
                                            investigationRequired := p.investigationRequired || investigate)))
  }

  predicate AllIn(order: seq<string>, accounts: map<string, Account>) {
    forall k :: 0 <= k < |order| ==> order[k] in accounts
  }

  /** The programs, in order, that detection cannot verify. */
  function SuspectsIn(order: seq<string>, accounts: map<string, Account>): seq<string>
    requires AllIn(order, accounts)
  {
    if order == [] then [] else
      var last := order[|order| - 1];
      SuspectsIn(order[..|order| - 1], accounts) + if Unverifiable(accounts[last]) then [last] else []
  }

  /** What the drift check reports of one program, if anything: both figures. */
  function DriftOf(programId: string, a: Account): Option<Mismatch> {
    if Drifted(a) then Some(Mismatch(programId, Outstanding(a.reservations, OpenLocal), a.program.position.localReserved))
    else None
  }

  function DriftsIn(order: seq<string>, accounts: map<string, Account>): seq<Mismatch>
    requires AllIn(order, accounts)
  {
    if order == [] then [] else
      var last := order[|order| - 1];
      var found := DriftOf(last, accounts[last]);
      DriftsIn(order[..|order| - 1], accounts) + if found.Some? then [found.value] else []
  }

  function AfterDetect(a: Account): Account {
    if Unverifiable(a) then Flagged(a, false, false) else a
  }

  function AfterCheck(a: Account): Account {
    if Drifted(a) then Flagged(a, true, true) else a
  }

  /** The accounts with those listed changed. */
  function Updated(accounts: map<string, Account>, done: seq<string>, change: Account -> Account): map<string, Account> {
    map p | p in accounts :: if p in done then change(accounts[p]) else accounts[p]
  }

  lemma NoneUpdated(accounts: map<string, Account>, change: Account -> Account)
    ensures Updated(accounts, [], change) == accounts
  {
  }

  lemma OneUpdated(accounts: map<string, Account>, order: seq<string>, i: nat, change: Account -> Account)
    requires i < |order| && order[i] in accounts && forall j, k :: 0 <= j < k < |order| ==> order[j] != order[k]
    ensures var before := Updated(accounts, order[..i], change);
      && order[i] in before && before[order[i]] == accounts[order[i]]
      && Updated(accounts, order[..i + 1], change) == before[order[i] := change(accounts[order[i]])]
  {
    TakeOne(order, i);
  }

  lemma AllUpdated(accounts: map<string, Account>, order: seq<string>, change: Account -> Account)
    requires Lists(order, accounts)
    ensures Updated(accounts, order, change) == map p | p in accounts :: change(accounts[p])
  {
  }

  lemma TakeOne(order: seq<string>, i: nat)
    requires i < |order| && forall j, k :: 0 <= j < k < |order| ==> order[j] != order[k]
    ensures order[i] !in order[..i] && order[..i + 1][..i] == order[..i] && order[..i + 1][i] == order[i]
    ensures forall p :: p in order[..i + 1] <==> p in order[..i] || p == order[i]
  {
  }

  /** In a good database the drift check reports nothing. */
  lemma {:induction false} CheckFindsNothing(order: seq<string>, db: Db)
    requires Inv(db) && AllIn(order, db.accounts)
    ensures DriftsIn(order, db.accounts) == []
  {
    if order != [] {
      CheckFindsNothing(order[..|order| - 1], db);
      LocalIsEverySum(db.accounts[order[|order| - 1]]);
    }
  }

  /** A detection of the programs in order: one read, then a write for each. */
  function Detection(order: seq<string>): seq<Op> {
    if order == [] then [DetectRead] else Detection(order[..|order| - 1]) + [DetectWrite(order[|order| - 1])]
  }

  function DriftCheck(order: seq<string>): seq<Op> {
    if order == [] then [DriftRead] else DriftCheck(order[..|order| - 1]) + [DriftWrite(order[|order| - 1])]
  }

  lemma OneStepMore(db: Db, ops: seq<Op>, op: Op)
    ensures Run(db, ops + [op]) == Step(Run(db, ops), op)
  {
    assert (ops + [op])[..|ops|] == ops;
  }

  lemma ListsAll(order: seq<string>, accounts: map<string, Account>)
    requires Lists(order, accounts)
    ensures forall k :: 0 <= k < |order| ==> order[k] in accounts
    ensures forall j, k :: 0 <= j < k < |order| ==> order[j] != order[k]
  {
  }

  /** The programs found by the read whose write is still to come. */
  function DetectionLeft(db: Db, done: seq<string>): set<string> {
    set p | p in db.accounts && Unverifiable(db.accounts[p]) && p !in done
  }

  lemma DetectionLeftShrinks(db: Db, order: seq<string>, i: nat)
    requires i < |order| && order[i] in db.accounts && forall j, k :: 0 <= j < k < |order| ==> order[j] != order[k]
    ensures order[i] in DetectionLeft(db, order[..i]) <==> Unverifiable(db.accounts[order[i]])
    ensures DetectionLeft(db, order[..i + 1]) == DetectionLeft(db, order[..i]) - {order[i]}
  {
    hide Unverifiable;
    TakeOne(order, i);
  }

  lemma DetectWriteDoes(db: Db, p: string)
    requires p in db.accounts && (p in db.suspects <==> Unverifiable(db.accounts[p]))
    ensures Step(db, DetectWrite(p)) == db.(accounts := db.accounts[p := AfterDetect(db.accounts[p])], suspects := db.suspects - {p})
  {
    hide Unverifiable;
  }

  lemma DetectionUnfolds(order: seq<string>, i: nat)
    requires 0 < i <= |order|
    ensures Detection(order[..i]) == Detection(order[..i - 1]) + [DetectWrite(order[i - 1])]
  {
    assert order[..i][..i - 1] == order[..i - 1];
  }

  lemma {:induction false} DetectionUpTo(db: Db, order: seq<string>, i: nat)
    requires Lists(order, db.accounts) && db.suspects == {} && i <= |order|
    ensures Run(db, Detection(order[..i])) == db.(
      accounts := Updated(db.accounts, order[..i], AfterDetect), suspects := DetectionLeft(db, order[..i]))
  {
    hide Unverifiable, AfterDetect, Updated, Lists;
    if i == 0 {
      DetectionBegins(db);
      NoneUpdated(db.accounts, AfterDetect);
      assert order[..0] == [];
    } else {
      hide Step, Run, DetectionLeft, Detection;
      var before := Run(db, Detection(order[..i - 1]));
      ListsAll(order, db.accounts);
      DetectionUpTo(db, order, i - 1);
      TakeOne(order, i - 1);
      OneUpdated(db.accounts, order, i - 1, AfterDetect);
      DetectionLeftShrinks(db, order, i - 1);
      DetectWriteDoes(before, order[i - 1]);
      DetectionUnfolds(order, i);
      OneStepMore(db, Detection(order[..i - 1]), DetectWrite(order[i - 1]));
    }
  }

  lemma DetectionBegins(db: Db)
    requires db.suspects == {}
    ensures Run(db, Detection([])) == db.(suspects := DetectionLeft(db, []))
  {
    hide Unverifiable;
    assert [DetectRead][..0] == [];
  }

  /** With nothing in between, the read and the writes of a detection flag exactly what the method does, each once. */
  lemma {:induction false} DetectionIsItsSteps(db: Db, order: seq<string>)
    requires Lists(order, db.accounts) && db.suspects == {}
    ensures Run(db, Detection(order)) == db.(accounts := map p | p in db.accounts :: AfterDetect(db.accounts[p]))
  {
    DetectionUpTo(db, order, |order|);
    hide Unverifiable, AfterDetect, Run, Detection, Updated;
    AllUpdated(db.accounts, order, AfterDetect);
    assert order[..|order|] == order;
  }

  /** The programs found by the read whose write is still to come. */
  function DriftCheckLeft(db: Db, done: seq<string>): set<string> {
    set p | p in db.accounts && Drifted(db.accounts[p]) && p !in done
  }

  lemma DriftCheckLeftShrinks(db: Db, order: seq<string>, i: nat)
    requires i < |order| && order[i] in db.accounts && forall j, k :: 0 <= j < k < |order| ==> order[j] != order[k]
    ensures order[i] in DriftCheckLeft(db, order[..i]) <==> Drifted(db.accounts[order[i]])
    ensures DriftCheckLeft(db, order[..i + 1]) == DriftCheckLeft(db, order[..i]) - {order[i]}
  {
    hide Drifted;
    TakeOne(order, i);
  }

  lemma DriftWriteDoes(db: Db, p: string)
    requires p in db.accounts && (p in db.drifted <==> Drifted(db.accounts[p]))
    ensures Step(db, DriftWrite(p)) == db.(accounts := db.accounts[p := AfterCheck(db.accounts[p])], drifted := db.drifted - {p})
  {
    hide Drifted;
  }

  lemma DriftCheckUnfolds(order: seq<string>, i: nat)
    requires 0 < i <= |order|
    ensures DriftCheck(order[..i]) == DriftCheck(order[..i - 1]) + [DriftWrite(order[i - 1])]
  {
    assert order[..i][..i - 1] == order[..i - 1];
  }

  lemma {:induction false} DriftCheckUpTo(db: Db, order: seq<string>, i: nat)
    requires Lists(order, db.accounts) && db.drifted == {} && i <= |order|
    ensures Run(db, DriftCheck(order[..i])) == db.(
      accounts := Updated(db.accounts, order[..i], AfterCheck), drifted := DriftCheckLeft(db, order[..i]))
  {
    hide Drifted, AfterCheck, Updated, Lists;
    if i == 0 {
      DriftCheckBegins(db);
      NoneUpdated(db.accounts, AfterCheck);
      assert order[..0] == [];
    } else {
      hide Step, Run, DriftCheckLeft, DriftCheck;
      var before := Run(db, DriftCheck(order[..i - 1]));
      ListsAll(order, db.accounts);
      DriftCheckUpTo(db, order, i - 1);
      TakeOne(order, i - 1);
      OneUpdated(db.accounts, order, i - 1, AfterCheck);
      DriftCheckLeftShrinks(db, order, i - 1);
      DriftWriteDoes(before, order[i - 1]);
      DriftCheckUnfolds(order, i);
      OneStepMore(db, DriftCheck(order[..i - 1]), DriftWrite(order[i - 1]));
    }
  }

  lemma DriftCheckBegins(db: Db)
    requires db.drifted == {}
    ensures Run(db, DriftCheck([])) == db.(drifted := DriftCheckLeft(db, []))
  {
    hide Drifted;
    assert [DriftRead][..0] == [];
  }

  /** The same for the drift check. */
  lemma {:induction false} DriftCheckIsItsSteps(db: Db, order: seq<string>)
    requires Lists(order, db.accounts) && db.drifted == {}
    ensures Run(db, DriftCheck(order)) == db.(accounts := map p | p in db.accounts :: AfterCheck(db.accounts[p]))
  {
    DriftCheckUpTo(db, order, |order|);
    hide Drifted, AfterCheck, Run, DriftCheck, Updated;
    AllUpdated(db.accounts, order, AfterCheck);
    assert order[..|order|] == order;
  }

  class Database {
    var accounts: map<string, Account>
    var requests: map<(string, string), RequestRecord>
    var processed: seq<ProcessedRow>
    var suspects: set<string>
    var drifted: set<string>

    constructor ()
      ensures State() == EMPTY
    {
      accounts, requests, processed, suspects, drifted := map[], map[], [], {}, {};
    }

    function State(): Db
      reads this
    {
      Db(accounts, requests, processed, suspects, drifted)
    }

    /** ROLLBACK: what the transaction wrote is discarded. */
    method Rollback(saved: Db)
      modifies this
      ensures State() == saved
    {
      accounts, requests, processed := saved.accounts, saved.requests, saved.processed;
      suspects, drifted := saved.suspects, saved.drifted;
    }

    // ---------- Idempotency ----------

    method Begin(c: Command, now: Time) returns (d: BeginDecision)
      modifies this`requests
      ensures d == BeginOf(old(requests), c)
      ensures requests ==
        if d.Begins? then old(requests)[KeyOf(c) := RequestRecord(OperationOf(c), Fingerprint(c), Pending, now)]
        else old(requests)
    {
      var key := KeyOf(c);
      if key !in requests {
        requests := requests[key := RequestRecord(OperationOf(c), Fingerprint(c), Pending, now)];
        return Begins;
      }
      var row := requests[key];
      if row.operation != OperationOf(c) || row.fingerprint != Fingerprint(c) {
        return Rejects(IdempotencyConflict);
      }
      match row.state {
        case Pending => d := Rejects(RequestInFlight);
        case Expired => d := Rejects(IdempotencyExpired);
        case Complete(outcome) => d := Replays(outcome);
      }
    }

    method Complete(c: Command, outcome: Body)
      requires KeyOf(c) in requests
      modifies this`requests
      ensures requests == old(requests)[KeyOf(c) := old(requests)[KeyOf(c)].(state := RecordState.Complete(outcome))]
    {
      requests := requests[KeyOf(c) := requests[KeyOf(c)].(state := RecordState.Complete(outcome))];
    }

    // ---------- persistAdvance ----------

    /** Inserts the ledger rows, then updates the program row; a constraint may reject either. */
    method PersistAdvance(programId: string, r: AdvanceResult, now: Time, reconciling: bool) returns (fault: Option<Fault>)
      requires programId in accounts
      requires exists entries :: r == Advance(accounts[programId].program.position, entries, now)
      modifies this`accounts
      ensures forall entries :: r == Advance(old(accounts)[programId].program.position, entries, now) ==>
        match Persist(old(accounts)[programId], entries, now, reconciling)
        case Failure(f) => fault == Some(f)
        case Success(b) => fault == None && accounts == old(accounts)[programId := b]
    {
      var a := accounts[programId];
      var before := a.program.position;
      if exists k :: 0 <= k < |r.entries| && !FitsInt64(r.entries[k].entry.delta) {
        return Some(OutOfRange);
      }
      if exists k :: 0 <= k < |a.ledger| && before.nextSequence <= a.ledger[k].sequence < r.program.nextSequence {
        return Some(UniqueViolation);
      }
      accounts := accounts[programId := a.(ledger := a.ledger + LedgerRows(r.entries, now))];
      if !ProgramFits(r.program) {
        return Some(OutOfRange);
      }
      if !ProgramChecks(r.program) || !TriggerAllows(before, r.program, reconciling) {
        return Some(CheckViolation);
      }
      a := accounts[programId];
      accounts := accounts[programId := a.(program := a.program.(
        position := before.(creditLimit := r.program.creditLimit, localReserved := r.program.localReserved,
                            treasuryReserved := r.program.treasuryReserved, nextSequence := r.program.nextSequence,
                            overLimitSince := r.program.overLimitSince),
        positionChangedAt := now))];
      fault := None;
    }

    /** Advances the locked program by some entries and writes the result. */
    method Book(programId: string, entries: seq<PendingEntry>, now: Time, reconciling: bool) returns (fault: Option<Fault>)
      requires programId in accounts
      modifies this`accounts
      ensures match Persist(old(accounts)[programId], entries, now, reconciling)
        case Failure(f) => fault == Some(f)
        case Success(b) => fault == None && accounts == old(accounts)[programId := b]
    {
      var r := AdvancePosition(accounts[programId].program.position, entries, now);
      fault := PersistAdvance(programId, r, now, reconciling);
    }

    // ---------- Reserve, release, cancel ----------

    method ReserveStatements(c: Command, amount: int, currency: string, rate: Option<ScaledRate>, now: Time) returns (w: Work)
      requires c.programId in accounts
      modifies this`accounts
      ensures w == ReserveWork(old(accounts)[c.programId], c, amount, currency, rate, now)
      ensures w.Done? ==> accounts == old(accounts)[c.programId := w.account]
    {
      var a := accounts[c.programId];
      var p := a.program.position;
      if Locate(a.reservations, c.invoiceId) < |a.reservations| {
        return Refuses(DuplicateInvoice);
      }
      var fx: FxResolution;
      if currency == p.currency {
        fx := SameCurrency;
      } else if rate.None? {
        fx := Unavailable;
      } else {
        fx := Rate(rate.value);
      }
      var decision := DecideReservation(p, amount, fx);
      if decision.Failure? {
        return Refuses(decision.error);
      }
      var d := decision.value;
      var row := NewReservation(c, amount, currency, p.currency, d, now);
      if !RowFits(row) {
        return Fails(OutOfRange);
      }
      if !RowChecks(row) {
        return Fails(CheckViolation);
      }
      accounts := accounts[c.programId := a.(reservations := a.reservations + [row])];
      var fault := Book(c.programId, [LocalEntry(c, d.reserved, Reservation)], now, false);
      if fault.Some? {
        return Fails(fault.value);
      }
      w := Done(accounts[c.programId], Body(row, accounts[c.programId].program));
    }

    /** Writes one LOCAL entry, then the reservation row it settles. */
    method SettleStatements(programId: string, i: nat, row: ReservationRow, entry: PendingEntry, now: Time) returns (w: Work)
      requires programId in accounts && i < |accounts[programId].reservations|
      modifies this`accounts
      ensures w == Settle(old(accounts)[programId], i, row, entry, now)
      ensures w.Done? ==> accounts == old(accounts)[programId := w.account]
    {
      var fault := Book(programId, [entry], now, false);
      if fault.Some? {
        return Fails(fault.value);
      }
      if !RowFits(row) {
        return Fails(OutOfRange);
      }
      if !RowChecks(row) {
        return Fails(CheckViolation);
      }
      var a := accounts[programId];
      accounts := accounts[programId := a.(reservations := a.reservations[i := row])];
      w := Done(accounts[programId], Body(row, accounts[programId].program));
    }

    method ReleaseStatements(c: Command, amount: int, currency: string, now: Time) returns (w: Work)
      requires c.programId in accounts
      modifies this`accounts
      ensures w == ReleaseWork(old(accounts)[c.programId], c, amount, currency, now)
      ensures w.Done? ==> accounts == old(accounts)[c.programId := w.account]
    {
      var a := accounts[c.programId];
      if !a.program.position.positionVerified {
        return Refuses(PositionUnverified);
      }
      var i := Locate(a.reservations, c.invoiceId);
      if i == |a.reservations| {
        return Refuses(NotFound);
      }
      var decision := ReleasePolicy(amount, currency, a.reservations[i], RateOf(a.reservations[i]));
      if decision.Failure? {
        return Refuses(decision.error);
      }
      var d := decision.value;
      var row := a.reservations[i].(outstandingInvoice := d.outstandingInvoice, outstandingReserved := d.outstandingReserved,
                                    status := d.status, updatedAt := now);
      w := SettleStatements(c.programId, i, row, LocalEntry(c, -d.delta, Release), now);
    }

    method CancelStatements(c: Command, now: Time) returns (w: Work)
      requires c.programId in accounts
      modifies this`accounts
      ensures w == CancelWork(old(accounts)[c.programId], c, now)
      ensures w.Done? ==> accounts == old(accounts)[c.programId := w.account]
    {
      var a := accounts[c.programId];
      if !a.program.position.positionVerified {
        return Refuses(PositionUnverified);
      }
      var i := Locate(a.reservations, c.invoiceId);
      if i == |a.reservations| {
        return Refuses(NotFound);
      }
      var decision := CancelPolicy(a.reservations[i]);
      if decision.Failure? {
        return Refuses(decision.error);
      }
      var d := decision.value;
      var row := a.reservations[i].(outstandingReserved := 0, status := d.status, updatedAt := now);
      w := SettleStatements(c.programId, i, row, LocalEntry(c, -d.delta, d.cause), now);
    }

    method Statements(c: Command, rate: Option<ScaledRate>, now: Time) returns (w: Work)
      requires c.programId in accounts
      modifies this`accounts
      ensures w == WorkOf(old(accounts)[c.programId], c, rate, now)
      ensures w.Done? ==> accounts == old(accounts)[c.programId := w.account]
    {
      match c.action {
        case ReserveAction(amount, currency) => w := ReserveStatements(c, amount, currency, rate, now);
        case ReleaseAction(amount, currency) => w := ReleaseStatements(c, amount, currency, now);
        case CancelAction(_, _) => w := CancelStatements(c, now);
      }
    }

    /** COMMIT with the completed record, or ROLLBACK. */
    method Finish(saved: Db, c: Command, w: Work, now: Time) returns (r: RequestResult)
      requires BeginOf(saved.requests, c).Begins?
      requires requests == saved.requests[KeyOf(c) := RequestRecord(OperationOf(c), Fingerprint(c), Pending, now)]
      requires w.Done? ==> accounts == saved.accounts[c.programId := w.account]
      requires processed == saved.processed && suspects == saved.suspects && drifted == saved.drifted
      modifies this
      ensures (State(), r) == Conclude(saved, c, w, now)
    {
      match w {
        case Refuses(code) =>
          Rollback(saved);
          r := Refused(code);
        case Fails(f) =>
          Rollback(saved);
          r := Faulted(f);
        case Done(_, body) =>
          Complete(c, body);
          assert requests == saved.requests[KeyOf(c) :=
            RequestRecord(OperationOf(c), Fingerprint(c), RecordState.Complete(body), now)];
          r := Created(body);
      }
    }

    /** reserve, release or cancel, from BEGIN to COMMIT or ROLLBACK. */
    method Serve(c: Command, rate: Option<ScaledRate>, now: Time) returns (r: RequestResult)
      modifies this
      ensures (State(), r) == RunRequest(old(State()), c, rate, now)
    {
      var saved := State();
      if c.programId !in accounts {
        return Faulted(ProgramNotFound);
      }
      var decision := Begin(c, now);
      if decision.Rejects? {
        Rollback(saved);
        return Refused(decision.code);
      }
      if decision.Replays? {
        return Replayed(decision.outcome);
      }
      var w := Statements(c, rate, now);
      r := Finish(saved, c, w, now);
    }

    /**
     * The retention sweep, returning how many records it expired: every complete record older than the
     * configured days expires, and every other one stays as it is.
     */
    method Sweep(now: Time, days: int) returns (affected: nat)
      modifies this`requests
      ensures State() == RunSweep(old(State()), now - days * 86_400_000)
      ensures requests.Keys == old(requests).Keys
      ensures forall k :: k in requests ==>
        requests[k] ==
          if old(requests)[k].state.Complete? && old(requests)[k].recordedAt < now - days * 86_400_000 then
            old(requests)[k].(state := Expired)
          else old(requests)[k]
      ensures affected == |set k | k in old(requests) && old(requests)[k].state.Complete?
                                    && old(requests)[k].recordedAt < now - days * 86_400_000|
    {
      var cutoff := now - days * 24 * 60 * 60 * 1000;
      affected := |set k | k in requests && requests[k].state.Complete? && requests[k].recordedAt < cutoff|;
      requests := map k | k in requests :: Swept(requests[k], cutoff);
    }

    // ---------- Treasury messages ----------

    method UpsertPosition(programId: string, at: Coordinates, now: Time)
      requires programId in accounts
      modifies this`accounts
      ensures accounts == old(accounts)[programId :=
        old(accounts)[programId].(positions := Upsert(old(accounts)[programId].positions, at, now))]
    {
      var a := accounts[programId];
      var i := LocateStream(a.positions, at.topic, at.partition);
      if i == |a.positions| {
        accounts := accounts[programId := a.(positions := a.positions + [StreamRow(at.topic, at.partition, at.offset, now)])];
      } else if a.positions[i].offset < at.offset {
        accounts := accounts[programId := a.(positions :=
          a.positions[i := a.positions[i].(offset := at.offset, updatedAt := now)])];
      }
    }

    method AdvanceAppliedTime(programId: string, effectiveAt: Time)
      requires programId in accounts
      modifies this`accounts
      ensures accounts == old(accounts)[programId := old(accounts)[programId].(program :=
        old(accounts)[programId].program.(appliedEffectiveAt := Latest(old(accounts)[programId].program.appliedEffectiveAt, effectiveAt)))]
    {
      var a := accounts[programId];
      if a.program.appliedEffectiveAt.None? || a.program.appliedEffectiveAt.value < effectiveAt {
        accounts := accounts[programId := a.(program := a.program.(appliedEffectiveAt := Some(effectiveAt)))];
      }
    }

    /** The statements of an event that is not already recorded. */
    method EventStatements(e: CapacityEvent, at: Coordinates, now: Time) returns (r: Result<bool, Fault>)
      requires e.programId in accounts
      modifies this`accounts
      ensures match EventWork(old(accounts)[e.programId], e, at, now)
        case Failure(f) => r == Failure(f)
        case Success(b) =>
          r == Success(IsEcho(old(accounts)[e.programId].reservations, e)) && accounts == old(accounts)[e.programId := b]
    {
      var a := accounts[e.programId];
      if IsEcho(a.reservations, e) {
        accounts := accounts[e.programId := a.(reservations := EchoRows(a.reservations, e, now))];
        UpsertPosition(e.programId, at, now);
        AdvanceAppliedTime(e.programId, e.effectiveAt);
        return Success(true);
      }
      var fault := Book(e.programId, [EventEntry(e, a.program.position.creditLimit)], now, false);
      if fault.Some? {
        return Failure(fault.value);
      }
      AdvanceAppliedTime(e.programId, e.effectiveAt);
      UpsertPosition(e.programId, at, now);
      r := Success(false);
    }

    method ApplyEvent(e: CapacityEvent, at: Coordinates, now: Time) returns (r: ApplyResult)
      modifies this
      ensures (State(), r) == RunEvent(old(State()), e, at, now)
    {
      var saved := State();
      if e.programId !in accounts {
        return Quarantined(UnknownProgram);
      }
      var a := accounts[e.programId];
      if a.program.position.currency != e.currency {
        return Quarantined(CurrencyMismatched);
      }
      if !FitsInt64(e.version) {
        return ApplyFaulted(OutOfRange);
      }
      var sameVersion := Find(processed, ByVersion(e.programId, EventKind, e.version));
      if sameVersion.Some? {
        if sameVersion.value.messageId == e.messageId {
          return AlreadyApplied;
        }
        return if sameVersion.value.content == EventContentOf(e) then AlreadyApplied else Quarantined(VersionConflict);
      }
      if Find(processed, ById(e.messageId)).Some? {
        return AlreadyApplied;
      }
      processed := processed + [ProcessedEvent(e)];
      var outcome := EventStatements(e, at, now);
      match outcome {
        case Failure(f) =>
          Rollback(saved);
          r := ApplyFaulted(f);
        case Success(echo) =>
          r := if echo then EchoSuppressed else Applied;
      }
    }

    /** One entry is pushed for each component that moves. */
    method BuildEntries(s: Snapshot, d: SnapshotDeltas) returns (entries: seq<PendingEntry>)
      ensures entries == Corrections(s, d)
    {
      entries := [];
      if d.treasury != 0 { entries := entries + CorrectionFor(s, Treasury, d.treasury); }
      if d.local != 0 { entries := entries + CorrectionFor(s, Local, d.local); }
      if d.limit != 0 { entries := entries + CorrectionFor(s, Limit, d.limit); }
    }

    /** The writes of an accepted snapshot, from its processed row to its stream position. */
    method WriteSnapshot(s: Snapshot, d: SnapshotDecision, at: Coordinates, now: Time) returns (fault: Option<Fault>)
      requires s.programId in accounts && d.Apply?
      modifies this`accounts, this`processed
      ensures match Persist(old(accounts)[s.programId], Corrections(s, d.deltas), now, true)
        case Failure(f) => fault == Some(f)
        case Success(b) =>
          && fault == None && processed == old(processed) + [ProcessedSnapshot(s)]
          && accounts == old(accounts)[s.programId := SnapshotWritten(b, s, d.acknowledged, d.investigationRequired, at, now)]
    {
      processed := processed + [ProcessedSnapshot(s)];
      var entries := BuildEntries(s, d.deltas);
      fault := Book(s.programId, entries, now, true);
      if fault.None? {
        FinishSnapshot(s, d, at, now);
      }
    }

    /** The statements of a snapshot that passed the checks under the lock. */
    method SnapshotStatements(s: Snapshot, marker: Marker, at: Coordinates, now: Time, basisPoints: int) returns (w: SnapshotWork)
      requires s.programId in accounts
      modifies this`accounts, this`processed
      ensures w == SnapshotWorkOf(old(accounts)[s.programId], s, marker, at, now, basisPoints)
      ensures w.Accepts? ==>
        accounts == old(accounts)[s.programId := w.account] && processed == old(processed) + [ProcessedSnapshot(s)]
    {
      var a := accounts[s.programId];
      var p := a.program.position;
      var decision := ApplySnapshotPolicy(p, s.version, s.reserved, s.creditLimit, marker, a.reservations);
      if decision.Refuse? {
        return Declines(SnapshotInconsistent);
      }
      if ExceedsMagnitudeGuard(decision.deltas.treasury, p.creditLimit, basisPoints) {
        return Declines(ImplausibleDelta);
      }
      var fault := WriteSnapshot(s, decision, at, now);
      w := if fault.Some? then Breaks(fault.value) else Accepts(accounts[s.programId]);
    }

    /** The applied version and flags, then the acknowledgements, then the stream position. */
    method FinishSnapshot(s: Snapshot, d: SnapshotDecision, at: Coordinates, now: Time)
      requires s.programId in accounts && d.Apply?
      modifies this`accounts
      ensures accounts == old(accounts)[s.programId :=
        SnapshotWritten(old(accounts)[s.programId], s, d.acknowledged, d.investigationRequired, at, now)]
    {
      var a := accounts[s.programId];
      var q := a.program.position;
      accounts := accounts[s.programId := a.(program := a.program.(
        position := q.(investigationRequired := q.investigationRequired || d.investigationRequired, positionVerified := true),
        treasuryVersion := s.version, treasuryEffectiveAt := Some(s.effectiveAt),
        appliedEffectiveAt := Latest(a.program.appliedEffectiveAt, s.effectiveAt)))];
      if |d.acknowledged| > 0 {
        a := accounts[s.programId];
        accounts := accounts[s.programId := a.(reservations := MarkIds(a.reservations, d.acknowledged, s.version, now))];
      } else {
        assert MarkIds(a.reservations, d.acknowledged, s.version, now) == a.reservations;
      }
      UpsertPosition(s.programId, at, now);
    }

    method ApplySnapshot(s: Snapshot, at: Coordinates, now: Time, basisPoints: int) returns (r: ApplyResult)
      modifies this
      ensures (State(), r) == RunSnapshot(old(State()), s, at, now, basisPoints)
    {
      var saved := State();
      if s.acknowledgement.None? {
        return Quarantined(MissingAckMarker);
      }
      if s.programId !in accounts {
        return Quarantined(UnknownProgram);
      }
      var a := accounts[s.programId];
      if a.program.position.currency != s.currency {
        return Quarantined(CurrencyMismatched);
      }
      if Find(processed, ById(s.messageId)).Some? {
        return Ignored;
      }
      var sameVersion := Find(processed, ByVersion(s.programId, SnapshotKind, s.version));
      if sameVersion.Some? {
        return if sameVersion.value.content == SnapshotContentOf(s) then Ignored else Quarantined(VersionConflict);
      }
      if s.version < a.program.treasuryVersion {
        return Ignored;
      }
      var w := SnapshotStatements(s, s.acknowledgement.value, at, now, basisPoints);
      match w {
        case Declines(reason) =>
          Rollback(saved);
          r := Quarantined(reason);
        case Breaks(f) =>
          Rollback(saved);
          r := ApplyFaulted(f);
        case Accepts(_) =>
          r := Applied;
      }
    }

    // ---------- Background jobs ----------

    /** Reads one program's row of the detection query and flags it if its position is behind. */
    method DetectOne(programId: string) returns (flagged: bool)
      requires programId in accounts
      modifies this`accounts
      ensures flagged == Unverifiable(old(accounts)[programId])
      ensures accounts == old(accounts)[programId := AfterDetect(old(accounts)[programId])]
    {
      var a := accounts[programId];
      flagged := false;
      if a.program.position.positionVerified {
        var ledgerAt, positionAt := LedgerAt(a.ledger), PositionAt(a.positions);
        if ledgerAt.Some? && !(positionAt.Some? && positionAt.value >= ledgerAt.value) {
          accounts := accounts[programId := Flagged(a, false, false)];
          flagged := true;
        }
      }
    }

    /** Flags every program that cannot be verified, and reports them in order. */
    method Detect(order: seq<string>) returns (flagged: seq<string>)
      requires Lists(order, accounts)
      modifies this`accounts
      ensures accounts == map p | p in old(accounts) :: AfterDetect(old(accounts)[p])
      ensures flagged == SuspectsIn(order, old(accounts))
    {
      hide AfterDetect, Unverifiable, Updated;
      flagged := [];
      ghost var before := accounts;
      NoneUpdated(before, AfterDetect);
      AllUpdated(before, order, AfterDetect);
      for i := 0 to |order|
        invariant accounts == Updated(before, order[..i], AfterDetect)
        invariant flagged == SuspectsIn(order[..i], before)
      {
        TakeOne(order, i);
        OneUpdated(before, order, i, AfterDetect);
        var found := DetectOne(order[i]);
        if found {
          flagged := flagged + [order[i]];
        }
      }
      assert order[..|order|] == order;
    }

    /** Compares one program's LOCAL with its open reservations, and flags a difference. */
    method CheckOne(programId: string) returns (mismatch: Option<Mismatch>)
      requires programId in accounts
      modifies this`accounts
      ensures mismatch == DriftOf(programId, old(accounts)[programId])
      ensures accounts == old(accounts)[programId := AfterCheck(old(accounts)[programId])]
    {
      var a := accounts[programId];
      var expected, actual := Outstanding(a.reservations, OpenLocal), a.program.position.localReserved;
      if expected == actual {
        return None;
      }
      accounts := accounts[programId := Flagged(a, true, true)];
      mismatch := Some(Mismatch(programId, expected, actual));
    }

    /** Flags and reports every program that drifted, and changes nothing else. */
    method Check(order: seq<string>) returns (mismatches: seq<Mismatch>)
      requires Lists(order, accounts)
      modifies this`accounts
      ensures accounts == map p | p in old(accounts) :: AfterCheck(old(accounts)[p])
      ensures mismatches == DriftsIn(order, old(accounts))
    {
      hide AfterCheck, DriftOf, Updated;
      mismatches := [];
      ghost var before := accounts;
      NoneUpdated(before, AfterCheck);
      AllUpdated(before, order, AfterCheck);
      for i := 0 to |order|
        invariant accounts == Updated(before, order[..i], AfterCheck)
        invariant mismatches == DriftsIn(order[..i], before)
      {
        TakeOne(order, i);
        OneUpdated(before, order, i, AfterCheck);
        var found := CheckOne(order[i]);
        if found.Some? {
          mismatches := mismatches + [found.value];
        }
      }
      assert order[..|order|] == order;
    }

    /** Replays every ledger; reports the first program and component that differ, and how many programs agreed before. */
    method AuditLedger(order: seq<string>) returns (programsChecked: nat, mismatch: Option<LedgerMismatch>)
      requires Lists(order, accounts)
      ensures mismatch.None? <==> forall p :: p in accounts ==> AgreesWith(accounts[p].program.position, Entries(accounts[p].ledger))
      ensures mismatch.None? ==> programsChecked == |order|
      ensures mismatch.Some? ==>
        && programsChecked < |order| && mismatch.value.programId == order[programsChecked]
        && var a := accounts[order[programsChecked]];
        && mismatch.value.ledgerSum == Delta(Entries(a.ledger), mismatch.value.component)
        && mismatch.value.cached == Cached(a.program.position, mismatch.value.component)
        && mismatch.value.ledgerSum != mismatch.value.cached
        && AgreesBefore(a, mismatch.value.component)
      ensures forall k :: 0 <= k < programsChecked ==> AgreesWith(accounts[order[k]].program.position, Entries(accounts[order[k]].ledger))
      ensures Inv(State()) ==> mismatch.None?
    {
      programsChecked := 0;
      while programsChecked < |order|
        invariant programsChecked <= |order|
        invariant forall k :: 0 <= k < programsChecked ==>
          AgreesWith(accounts[order[k]].program.position, Entries(accounts[order[k]].ledger))
      {
        var a := accounts[order[programsChecked]];
        for j := 0 to |COMPONENTS|
          invariant forall k :: 0 <= k < j ==> Delta(Entries(a.ledger), COMPONENTS[k]) == Cached(a.program.position, COMPONENTS[k])
        {
          var sum, cached := Delta(Entries(a.ledger), COMPONENTS[j]), Cached(a.program.position, COMPONENTS[j]);
          if sum != cached {
            mismatch := Some(LedgerMismatch(order[programsChecked], COMPONENTS[j], sum, cached));
            assert !AgreesWith(a.program.position, Entries(a.ledger));
            return;
          }
        }
        assert COMPONENTS[0] == Local && COMPONENTS[1] == Treasury && COMPONENTS[2] == Limit;
        programsChecked := programsChecked + 1;
      }
      mismatch := None;
    }
  }
}
