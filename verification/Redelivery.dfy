/** What the handlers answer in any run of the protocol, and what becomes of a message that comes again. */
module Redelivery {
  import opened Wrappers
  import opened Domain
  import opened Tables
  import opened Runs
  import opened Evolution
  import opened Guarantees
  import opened Consumer
  import opened Deliveries
  import opened Worker
  import opened Answers
  import opened Verdicts

  // ---------- The answer of an inspection ----------

  function AsReply(r: InspectResult): Reply {
    match r
    case Proceed => Proceeds
    case Skip => Settled
    case Quarantine(reason) => Quarantines(Inadmissible(reason))
    case InspectFaulted(_) => Raises(Unrecognised)
  }

  /**
   * A message that cannot be parsed is condemned whatever happens; any other is decided by what is
   * recorded, and a snapshot that would go on is condemned if it carries no marker.
   */
  function InspectionAnswer(db: Db, m: Message, fault: Option<Failure>): Reply {
    match m
    case Unparsable => Quarantines(SchemaInvalid)
    case EventMessage(e) => if fault.Some? then Raises(fault.value) else AsReply(EventInspected(db, db, db, e))
    case SnapshotMessage(s) =>
      if fault.Some? then Raises(fault.value)
      else if SnapshotInspected(db, db, db, s) == Proceed && s.acknowledgement == None then
        Quarantines(Inadmissible(MissingAckMarker))
      else AsReply(SnapshotInspected(db, db, db, s))
  }

  /** In any run of the protocol the inspection of any message answers as the table says. */
  lemma {:induction false} InspectionAnswers(w: World, moves: seq<Move>, m: Message, fault: Option<Failure>)
    requires Fresh(w) && AllAdmissible(moves)
    ensures InspectReply(Execute(w, moves).db, m, fault) == InspectionAnswer(Execute(w, moves).db, m, fault)
  {
    hide Execute, InspectEventOver, InspectSnapshotOver, EventInspected, SnapshotInspected;
    var db := Execute(w, moves).db;
    FreshIsGood(w);
    ExecuteKeepsWorld(w, moves);
    VersionsDiffer(db);
    match m
    case Unparsable =>
    case EventMessage(e) => EventInspection(db, db, db, e);
    case SnapshotMessage(s) => SnapshotInspection(db, db, db, s);
  }

  lemma VersionsDiffer(db: Db)
    requires Inv(db)
    ensures UniqueVersions(db.processed)
  {
  }

  /**
   * In any run an event of a known program, currency and 64-bit version conflicts exactly when its id is
   * new and the row recorded for its version differs in type, amount, currency or reference.
   */
  lemma {:induction false} ConflictIff(w: World, moves: seq<Move>, e: CapacityEvent, k: nat)
    requires Fresh(w) && AllAdmissible(moves)
    requires var db := Execute(w, moves).db;
      && e.programId in db.accounts && db.accounts[e.programId].program.position.currency == e.currency && In64Bits(e.version)
      && k < |db.processed| && db.processed[k].programId == e.programId
      && db.processed[k].kind == EventKind && db.processed[k].version == e.version
    ensures var rows := Execute(w, moves).db.processed;
      InspectReply(Execute(w, moves).db, EventMessage(e), None) ==
        if (forall j :: 0 <= j < |rows| ==> rows[j].messageId != e.messageId)
           && rows[k].content != EventContent(e.eventType, e.amount, e.currency, e.reference)
        then Quarantines(Inadmissible(VersionConflict)) else Settled
  {
    hide Execute;
    var db := Execute(w, moves).db;
    FreshIsGood(w);
    ExecuteKeepsWorld(w, moves);
    InspectionAnswers(w, moves, EventMessage(e), None);
    assert IsVersion(db.processed[k], e.programId, EventKind, e.version);
    OneRowPerVersion(db, e.programId, EventKind, e.version, k);
  }

  lemma OneRowPerVersion(db: Db, programId: string, kind: MessageKind, version: int, k: nat)
    requires Inv(db) && k < |db.processed| && IsVersion(db.processed[k], programId, kind, version)
    ensures forall j :: 0 <= j < |db.processed| && IsVersion(db.processed[j], programId, kind, version) ==> j == k
  {
  }

  // ---------- A message that is recorded ----------

  lemma FoundIsSettled(db: Db, m: Message)
    requires !m.Unparsable? && Find(db.processed, ById(IdOf(m))).Some?
    ensures InspectReply(db, m, None) == Settled
  {
  }

  /** A message that is recorded is settled by every later inspection that does not fail. */
  lemma {:induction false} RecordedIsSettled(db: Db, ops: seq<Op>, m: Message, k: nat)
    requires Inv(db) && AllWellFormed(ops) && !m.Unparsable?
    requires k < |db.processed| && db.processed[k].messageId == IdOf(m)
    ensures InspectReply(Run(db, ops), m, None) == Settled
  {
    hide Run, InspectReply, Inv, Evolves;
    RunEvolves(db, ops);
    assert db.processed[k] in db.processed;
    FoundStaysFound(db, Run(db, ops), ById(IdOf(m)));
    FoundIsSettled(Run(db, ops), m);
  }

  lemma SkipsThenCommits(w: World, at: Stream)
    requires Handling(w, at) && w.partitions[at].phase.Trying? && InspectReply(w.db, Current(w, at), None) == Settled
    ensures Next(Next(w, TryInspect(at, None)), Commit(at, Stored)) ==
      var p := w.partitions[at];
      w.(partitions := w.partitions[at := p.(committed := Some(p.position + 1), position := p.position + 1, phase := Trying(1))])
  {
    hide InspectReply;
  }

  /** Two steps without a failure: the message is seen to be recorded, and its offset is stored. */
  lemma SkipAndCommit(w: World, at: Stream)
    requires Handling(w, at) && w.partitions[at].phase.Trying? && InspectReply(w.db, Current(w, at), None) == Settled
    ensures Execute(w, [TryInspect(at, None), Commit(at, Stored)]) ==
      var p := w.partitions[at];
      w.(partitions := w.partitions[at := p.(committed := Some(p.position + 1), position := p.position + 1, phase := Trying(1))])
  {
    SkipsThenCommits(w, at);
    hide Next, Execute, InspectReply;
    ExecutePrepends(w, TryInspect(at, None), [Commit(at, Stored)]);
    ExecuteOne(Next(w, TryInspect(at, None)), Commit(at, Stored));
  }

  /**
   * Once a step has taken effect, then after any more of the run a delivery of a message with that id, on
   * whatever stream, ends without a failure with its offset stored and with the database and the
   * dead-letter queue as they were.
   */
  lemma {:induction false} RedeliveryIsSkipped(w: World, moves: seq<Move>, i: nat, at: Stream)
    requires Fresh(w) && AllAdmissible(moves) && i < |moves| && TakesEffect(Execute(w, moves[..i]), moves[i])
    requires var v := Execute(w, moves);
      && Handling(v, at) && v.partitions[at].phase.Trying? && !Current(v, at).Unparsable?
      && IdOf(Current(v, at)) == IdOf(Current(Execute(w, moves[..i]), moves[i].at))
    ensures var v := Execute(w, moves);
      Execute(v, [TryInspect(at, None), Commit(at, Stored)]) ==
        var p := v.partitions[at];
        v.(partitions := v.partitions[at := p.(committed := Some(p.position + 1), position := p.position + 1, phase := Trying(1))])
  {
    hide Execute, InspectReply, TakesEffect, AllAdmissible, Fresh;
    var v := Execute(w, moves);
    EffectStaysRecorded(w, moves, i);
    FoundIsSettled(v.db, Current(v, at));
    SkipAndCommit(v, at);
  }

  lemma EffectStaysRecorded(w: World, moves: seq<Move>, i: nat)
    requires Fresh(w) && AllAdmissible(moves) && i < |moves| && TakesEffect(Execute(w, moves[..i]), moves[i])
    ensures Find(Execute(w, moves).db.processed, ById(IdOf(Current(Execute(w, moves[..i]), moves[i].at)))).Some?
  {
    var first := Execute(w, moves[..i]);
    EffectRecords(first, moves[i]);
    hide Execute, WorldInv, TakesEffect, AllAdmissible, Fresh, Next, Find, Current;
    FreshIsGood(w);
    RestAdmissible(moves, i);
    ExecuteKeepsWorld(w, moves[..i]);
    NextKeepsWorld(first, moves[i]);
    ExecuteAfter(w, moves, i);
    RecordedStaysRecorded(Next(first, moves[i]), moves[i + 1..], IdOf(Current(first, moves[i].at)));
  }

  lemma RestAdmissible(moves: seq<Move>, i: nat)
    requires AllAdmissible(moves) && i < |moves|
    ensures AllAdmissible(moves[..i]) && Admissible(moves[i]) && AllAdmissible(moves[i + 1..])
  {
  }

  lemma ExecuteAfter(w: World, moves: seq<Move>, i: nat)
    requires i < |moves|
    ensures Execute(w, moves) == Execute(Next(Execute(w, moves[..i]), moves[i]), moves[i + 1..])
  {
    hide Execute;
    assert moves == moves[..i] + [moves[i]] + moves[i + 1..];
    ExecuteSplits(w, moves[..i] + [moves[i]], moves[i + 1..]);
    ExecuteSplits(w, moves[..i], [moves[i]]);
    ExecuteOne(Execute(w, moves[..i]), moves[i]);
  }

  /** processMessage, given a message that is recorded and an inspection that does not fail: it only commits. */
  lemma {:induction false} RecordedIsOnlyCommitted(w: World, at: Stream, k: nat, attempts: nat -> Attempt,
                                                   sendings: nat -> Sending, committal: Committal)
    requires Handling(w, at) && !Current(w, at).Unparsable? && attempts(1).fault == None
    requires k < |w.db.processed| && w.db.processed[k].messageId == IdOf(Current(w, at))
    ensures Replied(w, at, attempts) == [Settled]
    ensures DeliveryMoves(w, at, attempts, sendings, committal) == [TryInspect(at, None), Commit(at, committal)]
    ensures OutcomeOf(Settled, sendings, committal, w.maxAttempts) == if committal == Stored then Finished else CommitRejects
  {
    assert w.db.processed[k] in w.db.processed;
    FoundIsSettled(w.db, Current(w, at));
    AttemptIs(w, at, attempts(1));
  }
}
