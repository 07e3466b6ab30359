/** What the consumer protocol promises beyond not losing messages: once, in order, and without getting stuck. */
module Deliveries {
  import opened Wrappers
  import opened Domain
  import opened Tables
  import opened Runs
  import opened Evolution
  import opened Guarantees
  import opened Recovery
  import opened Consumer

  // ---------- Runs in two parts ----------

  lemma {:induction false} ExecuteSplits(w: World, a: seq<Move>, b: seq<Move>)
    ensures Execute(w, a + b) == Execute(Execute(w, a), b)
  {
    if b == [] {
      assert a + b == a;
    } else {
      ExecuteSplits(w, a, b[..|b| - 1]);
      assert (a + b)[..|a + b| - 1] == a + b[..|b| - 1];
    }
  }

  lemma ExecuteOne(w: World, move: Move)
    ensures Execute(w, [move]) == Next(w, move)
  {
  }

  lemma CurrentIsParsed(w: World, at: Stream)
    requires WorldInv(w) && Handling(w, at)
    ensures Inv(w.db) && (Current(w, at).SnapshotMessage? ==> Parsed(Current(w, at).s))
  {
    assert StreamInv(w, at);
  }

  lemma NextEvolves(w: World, move: Move)
    requires WorldInv(w) && Admissible(move)
    ensures Evolves(w.db, Next(w, move).db)
  {
    hide Evolves, StreamInv, Deliver, ApplyReply, InspectReply, Follow, Step;
    SelfEvolves(w.db);
    match move
    case TryApply(at, trouble, now, basisPoints) =>
      if Applicable(w, at) {
        CurrentIsParsed(w, at);
        DeliverKeepsInv(w.db, Current(w, at), Place(w, at), now, basisPoints);
      }
    case Other(op) => StepEvolves(w.db, op);
    case _ =>
  }

  lemma {:induction false} ExecuteEvolves(w: World, moves: seq<Move>)
    requires WorldInv(w) && AllAdmissible(moves)
    ensures WorldInv(Execute(w, moves)) && Evolves(w.db, Execute(w, moves).db)
  {
    if moves == [] {
      SelfEvolves(w.db);
    } else {
      var before := moves[..|moves| - 1];
      ExecuteEvolves(w, before);
      NextKeepsWorld(Execute(w, before), moves[|moves| - 1]);
      NextEvolves(Execute(w, before), moves[|moves| - 1]);
      EvolvesTransitive(w.db, Execute(w, before).db, Execute(w, moves).db);
    }
  }

  // ---------- At most one effect ----------

  function IdOf(m: Message): string
    requires !m.Unparsable?
  {
    match m
    case EventMessage(e) => e.messageId
    case SnapshotMessage(s) => s.messageId
  }

  /** A delivery that changed the database recorded the message's id, which was not recorded before. */
  lemma DeliveryRecords(db: Db, m: Message, at: Coordinates, now: Time, basisPoints: int)
    requires !m.Unparsable? && Deliver(db, m, at, now, basisPoints).0 != db
    ensures Find(db.processed, ById(IdOf(m))).None?
    ensures Find(Deliver(db, m, at, now, basisPoints).0.processed, ById(IdOf(m))).Some?
  {
    match m
    case EventMessage(e) =>
      var b := AppliedEventShape(db, e, at, now);
      LastIsFound(db.processed, ProcessedEvent(e));
    case SnapshotMessage(s) =>
      var work := AppliedShape(db, s, at, now, basisPoints);
      LastIsFound(db.processed, ProcessedSnapshot(s));
  }

  /** The step applies a message, and the database changes. */
  predicate TakesEffect(w: World, move: Move) {
    move.TryApply? && Applicable(w, move.at) && Next(w, move).db != w.db
  }

  lemma EffectRecords(w: World, move: Move)
    requires TakesEffect(w, move)
    ensures Find(w.db.processed, ById(IdOf(Current(w, move.at)))).None?
    ensures Find(Next(w, move).db.processed, ById(IdOf(Current(w, move.at)))).Some?
    ensures Next(w, move).db == Deliver(w.db, Current(w, move.at), Place(w, move.at), move.now, move.basisPoints).0
  {
    DeliveryRecords(w.db, Current(w, move.at), Place(w, move.at), move.now, move.basisPoints);
  }

  /** The state before step `j`, reached from the state after the earlier step `i`. */
  lemma ExecuteBetween(w: World, moves: seq<Move>, i: nat, j: nat)
    requires i < j < |moves|
    ensures Execute(w, moves[..j]) == Execute(Next(Execute(w, moves[..i]), moves[i]), moves[i + 1..j])
  {
    assert moves[..j] == moves[..i] + [moves[i]] + moves[i + 1..j];
    ExecuteSplits(w, moves[..i] + [moves[i]], moves[i + 1..j]);
    ExecuteSplits(w, moves[..i], [moves[i]]);
    ExecuteOne(Execute(w, moves[..i]), moves[i]);
  }

  lemma RecordedStaysRecorded(w: World, moves: seq<Move>, id: string)
    requires WorldInv(w) && AllAdmissible(moves) && Find(w.db.processed, ById(id)).Some?
    ensures Find(Execute(w, moves).db.processed, ById(id)).Some?
  {
    ExecuteEvolves(w, moves);
    Preserved(w.db, Execute(w, moves).db, ById(id));
  }

  /**
   * In any run, whatever fails, restarts or is delivered again and on whatever streams, two steps
   * applying messages of the same id do not both take effect.
   */
  lemma {:induction false} OneEffectPerMessage(w: World, moves: seq<Move>, i: nat, j: nat)
    requires Fresh(w) && AllAdmissible(moves) && i < j < |moves|
    requires TakesEffect(Execute(w, moves[..i]), moves[i]) && TakesEffect(Execute(w, moves[..j]), moves[j])
    ensures IdOf(Current(Execute(w, moves[..i]), moves[i].at)) != IdOf(Current(Execute(w, moves[..j]), moves[j].at))
  {
    var first := Execute(w, moves[..i]);
    FreshIsGood(w);
    ExecuteKeepsWorld(w, moves[..i]);
    NextKeepsWorld(first, moves[i]);
    EffectRecords(first, moves[i]);
    EffectRecords(Execute(w, moves[..j]), moves[j]);
    ExecuteBetween(w, moves, i, j);
    RecordedStaysRecorded(Next(first, moves[i]), moves[i + 1..j], IdOf(Current(first, moves[i].at)));
  }

  // ---------- What a restart leaves behind ----------

  lemma PositionGrows(w: World, move: Move, at: Stream)
    requires WorldInv(w) && at in w.partitions
    ensures at in Next(w, move).partitions
    ensures w.partitions[at].position <= Next(w, move).partitions[at].position
  {
  }

  lemma {:induction false} PositionOnlyGrows(w: World, moves: seq<Move>, at: Stream)
    requires WorldInv(w) && AllAdmissible(moves) && at in w.partitions
    ensures at in Execute(w, moves).partitions
    ensures w.partitions[at].position <= Execute(w, moves).partitions[at].position
  {
    if moves != [] {
      PositionOnlyGrows(w, moves[..|moves| - 1], at);
      ExecuteKeepsWorld(w, moves[..|moves| - 1]);
      PositionGrows(Execute(w, moves[..|moves| - 1]), moves[|moves| - 1], at);
    }
  }

  /**
   * A restart leaves a message behind, so that no later run ever delivers it again, exactly when it
   * was committed or when nothing of its partition had been committed yet.
   */
  lemma RestartLeavesBehind(w: World, at: Stream, k: nat, moves: seq<Move>)
    requires WorldInv(w) && AllAdmissible(moves) && at in w.partitions
    requires w.partitions[at].base <= k < |w.partitions[at].log|
    ensures var p, q := w.partitions[at], Next(w, Restart(at)).partitions[at];
      (k < q.position <==> p.committed.None? || k < p.committed.value)
    ensures var p, after := w.partitions[at], Execute(Next(w, Restart(at)), moves);
      at in after.partitions && (p.committed.None? || k < p.committed.value ==> k < after.partitions[at].position)
  {
    RestartKeepsWorld(w, at);
    PositionOnlyGrows(Next(w, Restart(at)), moves, at);
  }

  /**
   * An offset that was stored, whether or not the consumer heard of it, stays stored: whatever follows, a
   * restart resumes after its message.
   */
  lemma {:induction false} StoredOffsetIsResumed(w: World, at: Stream, committal: Committal, moves: seq<Move>)
    requires WorldInv(w) && AllAdmissible(moves) && Handling(w, at) && w.partitions[at].phase.Committing? && committal != NotStored
    ensures var after := Execute(Next(w, Commit(at, committal)), moves);
      && at in after.partitions
      && w.partitions[at].position + 1 <= Next(after, Restart(at)).partitions[at].position
  {
    CommitKeepsWorld(w, at, committal);
    CommittedOnlyGrows(Next(w, Commit(at, committal)), moves, at);
  }

  lemma {:induction false} CommittedOnlyGrows(w: World, moves: seq<Move>, at: Stream)
    requires WorldInv(w) && AllAdmissible(moves) && at in w.partitions && w.partitions[at].committed.Some?
    ensures at in Execute(w, moves).partitions && Execute(w, moves).partitions[at].committed.Some?
    ensures w.partitions[at].committed.value <= Execute(w, moves).partitions[at].committed.value
  {
    if moves != [] {
      CommittedOnlyGrows(w, moves[..|moves| - 1], at);
      ExecuteKeepsWorld(w, moves[..|moves| - 1]);
      CommittedGrows(Execute(w, moves[..|moves| - 1]), moves[|moves| - 1], at);
    }
  }

  lemma CommittedGrows(w: World, move: Move, at: Stream)
    requires WorldInv(w) && at in w.partitions && w.partitions[at].committed.Some?
    ensures at in Next(w, move).partitions && Next(w, move).partitions[at].committed.Some?
    ensures w.partitions[at].committed.value <= Next(w, move).partitions[at].committed.value
  {
    assert StreamInv(w, at);
    hide InspectReply, Deliver, ApplyReply, Follow, Step, Accounted, Inv;
  }

  /** A message `m` in the log, a restart before anything is committed, and a later message handled to its end. */
  function SkippingRun(at: Stream, m: Message): seq<Move> {
    [Produce(at, m), Restart(at), Produce(at, Unparsable), TryInspect(at, None), Publish(at, Sent), Commit(at, Stored)]
  }

  lemma ExecuteSix(w: World, moves: seq<Move>)
    requires |moves| == 6
    ensures Execute(w, moves)
      == Next(Next(Next(Next(Next(Next(w, moves[0]), moves[1]), moves[2]), moves[3]), moves[4]), moves[5])
  {
    var three, rest := moves[..3], moves[3..];
    assert moves == three + rest;
    ExecuteSplits(w, three, rest);
    ExecuteThree(w, three);
    ExecuteThree(Execute(w, three), rest);
  }

  lemma ExecuteThree(w: World, moves: seq<Move>)
    requires |moves| == 3
    ensures Execute(w, moves) == Next(Next(Next(w, moves[0]), moves[1]), moves[2])
  {
    assert moves == [moves[0]] + [moves[1]] + [moves[2]];
    ExecuteSplits(w, [moves[0]] + [moves[1]], [moves[2]]);
    ExecuteSplits(w, [moves[0]], [moves[1]]);
    ExecuteOne(w, moves[0]);
    ExecuteOne(Next(w, moves[0]), moves[1]);
    ExecuteOne(Next(Next(w, moves[0]), moves[1]), moves[2]);
  }

  /** Such a run ends with the stored offset past the first message, which was never handled in any way. */
  lemma FirstMessageIsLost(w: World, at: Stream, m: Message)
    requires Fresh(w) && at in w.partitions
    ensures var after := Execute(w, SkippingRun(at, m));
      && at in after.partitions && after.partitions[at].log == [m, Unparsable]
      && after.partitions[at].committed == Some(2) && !Accounted(after, at, 0, m)
  {
    var moves := SkippingRun(at, m);
    ExecuteSix(w, moves);
    SkipFirst(w, at, m);
    HandleSecond(Next(Next(Next(w, moves[0]), moves[1]), moves[2]), at, m);
  }

  lemma SkipFirst(w: World, at: Stream, m: Message)
    requires Fresh(w) && at in w.partitions
    ensures var v := Next(Next(Next(w, Produce(at, m)), Restart(at)), Produce(at, Unparsable));
      && v.db == EMPTY && v.dlq == [] && at in v.partitions
      && v.partitions[at] == Partition([m, Unparsable], 1, 1, None, Trying(1))
  {
  }

  lemma HandleSecond(v: World, at: Stream, m: Message)
    requires v.db == EMPTY && v.dlq == [] && at in v.partitions
    requires v.partitions[at] == Partition([m, Unparsable], 1, 1, None, Trying(1))
    ensures var after := Next(Next(Next(v, TryInspect(at, None)), Publish(at, Sent)), Commit(at, Stored));
      && at in after.partitions && after.partitions[at].log == [m, Unparsable]
      && after.partitions[at].committed == Some(2) && !Accounted(after, at, 0, m)
  {
    var after := Next(Next(Next(v, TryInspect(at, None)), Publish(at, Sent)), Commit(at, Stored));
    assert after.dlq == [DlqRecord(at, 1, SchemaInvalid)] && after.db == EMPTY;
  }

  predicate SkipsAhead(w: World, move: Move, at: Stream) {
    && move == Restart(at) && at in w.partitions
    && w.partitions[at].committed.None? && w.partitions[at].base < |w.partitions[at].log|
  }

  predicate NeverSkipsAhead(w: World, moves: seq<Move>, at: Stream) {
    forall k :: 0 <= k < |moves| ==> !SkipsAhead(Execute(w, moves[..k]), moves[k], at)
  }

  lemma BaseMovesBySkipping(w: World, move: Move, at: Stream)
    requires WorldInv(w) && at in w.partitions
    ensures at in Next(w, move).partitions
    ensures SkipsAhead(w, move, at) <==> Next(w, move).partitions[at].base != w.partitions[at].base
  {
  }

  lemma SkippingPrefix(w: World, moves: seq<Move>, at: Stream)
    requires moves != [] && NeverSkipsAhead(w, moves, at)
    ensures NeverSkipsAhead(w, moves[..|moves| - 1], at)
    ensures !SkipsAhead(Execute(w, moves[..|moves| - 1]), moves[|moves| - 1], at)
  {
    var n := |moves| - 1;
    forall k | 0 <= k < n ensures !SkipsAhead(Execute(w, moves[..n][..k]), moves[..n][k], at) {
      assert moves[..n][..k] == moves[..k];
    }
  }

  lemma {:induction false} BaseStays(w: World, moves: seq<Move>, at: Stream)
    requires WorldInv(w) && AllAdmissible(moves) && at in w.partitions && NeverSkipsAhead(w, moves, at)
    ensures at in Execute(w, moves).partitions && Execute(w, moves).partitions[at].base == w.partitions[at].base
  {
    if moves != [] {
      var n := |moves| - 1;
      SkippingPrefix(w, moves, at);
      BaseStays(w, moves[..n], at);
      ExecuteKeepsWorld(w, moves[..n]);
      BaseMovesBySkipping(Execute(w, moves[..n]), moves[n], at);
    }
  }

  /** Without a restart before the first commit, everything below the stored offset is accounted for. */
  lemma {:induction false} NothingIsLost(w: World, moves: seq<Move>, at: Stream, k: nat)
    requires Fresh(w) && AllAdmissible(moves) && at in w.partitions && NeverSkipsAhead(w, moves, at)
    requires at in Execute(w, moves).partitions
    requires Execute(w, moves).partitions[at].committed.Some? && k < Execute(w, moves).partitions[at].committed.value
    ensures k < |Execute(w, moves).partitions[at].log|
    ensures Accounted(Execute(w, moves), at, k, Execute(w, moves).partitions[at].log[k])
  {
    FreshIsGood(w);
    BaseStays(w, moves, at);
    NothingCommittedIsLost(w, moves, at, k);
  }

  // ---------- In order ----------

  /** The stored offsets of a stream never pass its position, and reach it only for a recorded message. */
  predicate Behind(w: World, row: StreamRow) {
    var at := Stream(row.topic, row.partition);
    && at in w.partitions && row.offset <= w.partitions[at].position
    && (row.offset == w.partitions[at].position ==>
          && Handling(w, at) && !Current(w, at).Unparsable?
          && Find(w.db.processed, ById(IdOf(Current(w, at)))).Some?)
  }

  predicate AllBehind(w: World, rows: seq<StreamRow>) {
    forall k :: 0 <= k < |rows| ==> Behind(w, rows[k])
  }

  ghost predicate OffsetsInv(w: World) {
    forall p :: p in w.db.accounts ==> AllBehind(w, w.db.accounts[p].positions)
  }

  /** A row that was behind stays behind while positions advance and the record of messages grows. */
  lemma BehindIsKept(v: World, w: World, row: StreamRow)
    requires Behind(v, row) && Evolves(v.db, w.db) && Stream(row.topic, row.partition) in w.partitions
    requires var p, q := v.partitions[Stream(row.topic, row.partition)], w.partitions[Stream(row.topic, row.partition)];
      p.position <= q.position && (p.position == q.position < |p.log| ==> p.position < |q.log| && q.log[q.position] == p.log[p.position])
    ensures Behind(w, row)
  {
  }

  /** What a step keeps of every partition: its position only grows and its log only gains. */
  lemma PartitionsAdvance(w: World, move: Move, at: Stream)
    requires WorldInv(w) && at in w.partitions
    ensures at in Next(w, move).partitions
    ensures var p, q := w.partitions[at], Next(w, move).partitions[at];
      p.position <= q.position && (p.position == q.position < |p.log| ==> p.position < |q.log| && q.log[q.position] == p.log[p.position])
  {
    assert StreamInv(w, at);
    hide InspectReply, Deliver, ApplyReply, Follow, Step, Accounted, Inv;
  }

  lemma AllBehindIsKept(w: World, move: Move, rows: seq<StreamRow>)
    requires WorldInv(w) && Admissible(move) && AllBehind(w, rows)
    ensures AllBehind(Next(w, move), rows)
  {
    NextEvolves(w, move);
    forall k | 0 <= k < |rows| ensures Behind(Next(w, move), rows[k]) {
      PartitionsAdvance(w, move, Stream(rows[k].topic, rows[k].partition));
      BehindIsKept(w, Next(w, move), rows[k]);
    }
  }

  lemma DeliveryKeepsKeys(db: Db, m: Message, at: Coordinates, now: Time, basisPoints: int)
    requires !m.Unparsable?
    ensures Deliver(db, m, at, now, basisPoints).0.accounts.Keys == db.accounts.Keys
  {
  }

  lemma WorkStamps(a: Account, s: Snapshot, marker: Marker, at: Coordinates, now: Time, basisPoints: int)
    requires SnapshotWorkOf(a, s, marker, at, now, basisPoints).Accepts?
    ensures SnapshotWorkOf(a, s, marker, at, now, basisPoints).account.positions == Upsert(a.positions, at, now)
  {
  }

  lemma DeliveryStamps(db: Db, m: Message, at: Coordinates, now: Time, basisPoints: int, p: string)
    requires !m.Unparsable? && p in db.accounts && p in Deliver(db, m, at, now, basisPoints).0.accounts
    ensures var rows := Deliver(db, m, at, now, basisPoints).0.accounts[p].positions;
      rows == db.accounts[p].positions || rows == Upsert(db.accounts[p].positions, at, now)
  {
    if Deliver(db, m, at, now, basisPoints).0 != db {
      match m
      case EventMessage(e) => var b := AppliedEventShape(db, e, at, now);
      case SnapshotMessage(s) =>
        var work := AppliedShape(db, s, at, now, basisPoints);
        WorkStamps(db.accounts[s.programId], s, s.acknowledgement.value, at, now, basisPoints);
    }
  }

  /** After a step takes effect, its own place counts as behind: the message there is recorded. */
  lemma StampIsBehind(w: World, move: Move)
    requires WorldInv(w) && TakesEffect(w, move)
    ensures Behind(Next(w, move), StreamRow(move.at.topic, move.at.partition, w.partitions[move.at].position, move.now))
  {
    EffectRecords(w, move);
    var p, q := w.partitions[move.at], Next(w, move).partitions[move.at];
    assert q.position == p.position && q.log == p.log;
    assert Stream(move.at.topic, move.at.partition) == move.at;
  }

  lemma UpsertIsBehind(w: World, rows: seq<StreamRow>, at: Coordinates, now: Time)
    requires AllBehind(w, rows) && Behind(w, StreamRow(at.topic, at.partition, at.offset, now))
    ensures AllBehind(w, Upsert(rows, at, now))
  {
  }

  lemma ApplyKeepsOffsets(w: World, move: Move)
    requires WorldInv(w) && OffsetsInv(w) && Admissible(move) && TakesEffect(w, move)
    ensures OffsetsInv(Next(w, move))
  {
    var after := Next(w, move);
    forall p | p in after.db.accounts ensures AllBehind(after, after.db.accounts[p].positions) {
      StampedRowsAreBehind(w, move, p);
    }
  }

  lemma StampedRowsAreBehind(w: World, move: Move, p: string)
    requires WorldInv(w) && OffsetsInv(w) && Admissible(move) && TakesEffect(w, move) && p in Next(w, move).db.accounts
    ensures AllBehind(Next(w, move), Next(w, move).db.accounts[p].positions)
  {
    var at := Place(w, move.at);
    EffectRecords(w, move);
    StampIsBehind(w, move);
    DeliveryKeepsKeys(w.db, Current(w, move.at), at, move.now, move.basisPoints);
    DeliveryStamps(w.db, Current(w, move.at), at, move.now, move.basisPoints, p);
    AllBehindIsKept(w, move, w.db.accounts[p].positions);
    UpsertIsBehind(Next(w, move), w.db.accounts[p].positions, at, move.now);
  }

  /** No operation other than a delivery stores an offset. */
  lemma OthersStoreNoOffset(db: Db, op: Op, p: string)
    requires !op.DeliverEvent? && !op.DeliverSnapshot? && p in Step(db, op).accounts
    ensures var rows := Step(db, op).accounts[p].positions;
      rows == [] || (p in db.accounts && rows == db.accounts[p].positions)
  {
    match op
    case Request(c, rate, now) =>
      if RunRequest(db, c, rate, now).1.Created? { WorkKeepsVersion(db.accounts[c.programId], c, rate, now); }
    case _ =>
  }

  lemma NextKeepsOffsets(w: World, move: Move)
    requires WorldInv(w) && OffsetsInv(w) && Admissible(move)
    ensures OffsetsInv(Next(w, move))
  {
    if TakesEffect(w, move) {
      ApplyKeepsOffsets(w, move);
    } else {
      var after := Next(w, move);
      forall p | p in after.db.accounts ensures AllBehind(after, after.db.accounts[p].positions) {
        if move.Other? { OthersStoreNoOffset(w.db, move.op, p); }
        if after.db.accounts[p].positions != [] { AllBehindIsKept(w, move, w.db.accounts[p].positions); }
      }
    }
  }

  /** A message that takes effect is ahead of every offset stored for its stream. */
  lemma EffectIsAhead(w: World, move: Move)
    requires WorldInv(w) && OffsetsInv(w) && TakesEffect(w, move)
    ensures forall p :: p in w.db.accounts ==> Ahead(w.db.accounts[p].positions, Place(w, move.at))
  {
    DeliveryRecords(w.db, Current(w, move.at), Place(w, move.at), move.now, move.basisPoints);
    forall p | p in w.db.accounts ensures Ahead(w.db.accounts[p].positions, Place(w, move.at)) {
      var rows, at := w.db.accounts[p].positions, Place(w, move.at);
      var i := LocateStream(rows, at.topic, at.partition);
      if i < |rows| { assert Behind(w, rows[i]); }
    }
  }

  /** The clock read by the database operations never goes back. */
  predicate Timed(ops: seq<Op>) {
    ops == [] ||
    (Timed(ops[..|ops| - 1]) && NotBefore(Clock(ops[..|ops| - 1]), TimeOf(ops[|ops| - 1])))
  }

  predicate KeepsPositions(moves: seq<Move>) {
    forall k :: 0 <= k < |moves| ==> !(moves[k].Other? && moves[k].op.LosePositions?)
  }

  lemma OpIsInOrder(w: World, move: Move)
    requires WorldInv(w) && OffsetsInv(w) && Admissible(move) && OpOf(w, move) != []
    ensures |OpOf(w, move)| == 1 && WellFormed(OpOf(w, move)[0]) && InOrder(w.db, OpOf(w, move)[0])
  {
    if move.TryApply? {
      assert StreamInv(w, move.at);
      if TakesEffect(w, move) {
        EffectIsAhead(w, move);
        match Current(w, move.at)
        case EventMessage(e) => var b := AppliedEventShape(w.db, e, Place(w, move.at), move.now);
        case SnapshotMessage(s) => var work := AppliedShape(w.db, s, Place(w, move.at), move.now, move.basisPoints);
      }
    }
  }

  lemma FreshHasNoOffsets(w: World)
    requires Fresh(w)
    ensures WorldInv(w) && OffsetsInv(w) && Execute(w, []) == w
  {
    FreshIsGood(w);
  }

  lemma ExecuteLast(w: World, moves: seq<Move>)
    requires moves != []
    ensures Execute(w, moves) == Next(Execute(w, moves[..|moves| - 1]), moves[|moves| - 1])
  {
  }

  lemma {:induction false} ExecuteIsOrderly(w: World, moves: seq<Move>)
    requires Fresh(w) && AllAdmissible(moves) && KeepsPositions(moves) && Timed(OpsOf(w, moves))
    ensures WorldInv(Execute(w, moves)) && OffsetsInv(Execute(w, moves)) && Orderly(OpsOf(w, moves))
  {
    hide Next, WorldInv, OffsetsInv, InOrder, Execute;
    FreshHasNoOffsets(w);
    if moves == [] {
    } else {
      ExecuteLast(w, moves);
      var before, move := moves[..|moves| - 1], moves[|moves| - 1];
      var mid, ops, op := Execute(w, before), OpsOf(w, before), OpOf(Execute(w, before), move);
      if op == [] {
        assert ops + op == ops;
      } else {
        assert (ops + op)[..|ops|] == ops && |op| == 1;
      }
      ExecuteIsOrderly(w, before);
      ExecuteRunsOps(w, before);
      NextKeepsWorld(mid, move);
      NextKeepsOffsets(mid, move);
      if op != [] { OpIsInOrder(mid, move); }
    }
  }

  /** Under the protocol, with a clock that does not go back, recovery detection never raises a false alarm. */
  lemma {:induction false} ProtocolRaisesNoAlarm(w: World, moves: seq<Move>, p: string)
    requires Fresh(w) && AllAdmissible(moves) && KeepsPositions(moves) && Timed(OpsOf(w, moves))
    requires p in Execute(w, moves).db.accounts
    ensures var db := Execute(w, moves).db;
      !Unverifiable(db.accounts[p]) && db.accounts[p].program.position.positionVerified && db.suspects == {}
  {
    ExecuteIsOrderly(w, moves);
    ExecuteRunsOps(w, moves);
    NoFalseAlarm(OpsOf(w, moves), p);
  }

  // ---------- Never stuck ----------

  /** A step on one stream in which nothing fails. */
  predicate Untroubled(move: Move, at: Stream) {
    match move
    case TryInspect(a, fault) => a == at && fault.None?
    case TryApply(a, trouble, _, _) => a == at && trouble.NoTrouble?
    case Publish(a, sending) => a == at && sending.Sent?
    case Commit(a, committal) => a == at && committal.Stored?
    case _ => false
  }

  predicate AllUntroubled(moves: seq<Move>, at: Stream) {
    forall k :: 0 <= k < |moves| ==> Untroubled(moves[k], at)
  }

  /** How far a message is from being committed: attempts left, then phases. */
  function Remaining(maxAttempts: int, phase: Phase): nat {
    match phase
    case Trying(n) => if n < maxAttempts then maxAttempts - n + 1 else 1
    case Applying(n) => if n < maxAttempts then maxAttempts - n + 1 else 1
    case _ => 0
  }

  function Rank(phase: Phase): nat {
    match phase
    case Trying(_) => 3
    case Applying(_) => 2
    case Publishing(_, _) => 1
    case Committing => 0
  }

  function Untried(phase: Phase, at: Stream, now: Time, basisPoints: int): Move {
    match phase
    case Trying(_) => TryInspect(at, None)
    case Applying(_) => TryApply(at, NoTrouble, now, basisPoints)
    case Publishing(_, _) => Publish(at, Sent)
    case Committing => Commit(at, Stored)
  }

  predicate Closer(maxAttempts: int, q: Phase, p: Phase) {
    Remaining(maxAttempts, q) < Remaining(maxAttempts, p)
    || (Remaining(maxAttempts, q) == Remaining(maxAttempts, p) && Rank(q) < Rank(p))
  }

  lemma FollowIsLess(maxAttempts: int, n: int, r: Reply)
    ensures !(r.Raises? && r.failure.Transient?) ==> Closer(maxAttempts, Follow(maxAttempts, n, r), Trying(n))
    ensures !(r.Raises? && r.failure.Transient?) && !r.Proceeds? ==> Closer(maxAttempts, Follow(maxAttempts, n, r), Applying(n))
  {
  }

  lemma ApplyNeverProceeds(r: ApplyResult)
    ensures !ApplyReply(r, NoTrouble).Proceeds?
    ensures ApplyReply(r, NoTrouble).Raises? ==> ApplyReply(r, NoTrouble).failure.Unrecognised?
  {
  }

  lemma InspectRaisesUnrecognised(db: Db, m: Message)
    ensures InspectReply(db, m, None).Raises? ==> InspectReply(db, m, None).failure.Unrecognised?
  {
  }

  lemma EndIsNear(maxAttempts: int)
    ensures forall reason, n :: Remaining(maxAttempts, Publishing(reason, n)) == 0
    ensures Remaining(maxAttempts, Committing) == 0
  {
  }

  lemma UntroubledProgresses(w: World, at: Stream, now: Time, basisPoints: int)
    requires WorldInv(w) && Handling(w, at)
    ensures var p := w.partitions[at];
      var after := Next(w, Untried(p.phase, at, now, basisPoints));
      && after.maxAttempts == w.maxAttempts && at in after.partitions
      && var q := after.partitions[at];
         if p.phase.Committing? then q.committed == Some(p.position + 1) && q.position == p.position + 1
         else
           && q.log == p.log && q.position == p.position
           && Closer(w.maxAttempts, q.phase, p.phase)
  {
    hide InspectReply, Deliver, ApplyReply, Follow, Remaining;
    assert StreamInv(w, at);
    var phase := w.partitions[at].phase;
    match phase {
      case Trying(n) =>
        InspectRaisesUnrecognised(w.db, Current(w, at));
        FollowIsLess(w.maxAttempts, n, InspectReply(w.db, Current(w, at), None));
      case Applying(n) =>
        var r := Deliver(w.db, Current(w, at), Place(w, at), now, basisPoints).1;
        ApplyNeverProceeds(r);
        FollowIsLess(w.maxAttempts, n, ApplyReply(r, NoTrouble));
      case _ => EndIsNear(w.maxAttempts);
    }
  }

  lemma ExecutePrepends(w: World, move: Move, rest: seq<Move>)
    ensures Execute(w, [move] + rest) == Execute(Next(w, move), rest)
  {
    ExecuteSplits(w, [move], rest);
    ExecuteOne(w, move);
  }

  /**
   * No poison message: from any reachable state there is a run in which nothing fails that commits
   * the message at the position, so only failures outside it can hold a partition up.
   */
  lemma {:induction false} NeverStuck(w: World, at: Stream, now: Time, basisPoints: int) returns (moves: seq<Move>)
    requires WorldInv(w) && Handling(w, at)
    ensures AllUntroubled(moves, at) && at in Execute(w, moves).partitions
    ensures Execute(w, moves).partitions[at].committed == Some(w.partitions[at].position + 1)
    ensures Execute(w, moves).partitions[at].position == w.partitions[at].position + 1
    decreases Remaining(w.maxAttempts, w.partitions[at].phase), Rank(w.partitions[at].phase)
  {
    hide Next, Execute, WorldInv, Remaining, Rank;
    var phase := w.partitions[at].phase;
    var move := Untried(phase, at, now, basisPoints);
    UntroubledProgresses(w, at, now, basisPoints);
    if phase.Committing? {
      moves := [move];
      ExecuteOne(w, move);
    } else {
      NextKeepsWorld(w, move);
      var rest := NeverStuck(Next(w, move), at, now, basisPoints);
      moves := [move] + rest;
      ExecutePrepends(w, move, rest);
    }
  }
}
