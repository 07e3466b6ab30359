/**
 * The consumer protocol over the database: partition logs, at-least-once delivery, bounded retries,
 * the dead-letter queue, offset commits, and a restart at any point between any two effects
 * (src/treasury/consumer/treasury.consumer.ts, src/treasury/retry/failure-classifier.ts).
 */
module Consumer {
  import opened Wrappers
  import opened Domain
  import opened Tables
  import opened Runs
  import opened Evolution
  import opened Guarantees
  import opened Recovery

  // ---------- State ----------

  datatype Stream = Stream(topic: string, partition: int)

  /** A message as the handler of its topic parses it. */
  datatype Message = Unparsable | EventMessage(e: CapacityEvent) | SnapshotMessage(s: Snapshot)

  /** What an error is to the classifier: declared permanent, recognised as transient, or neither. */
  datatype Failure = Permanent | Transient | Unrecognised

  datatype DlqReason = SchemaInvalid | HandlerFailure | Inadmissible(reason: QuarantineReason)

  datatype DlqRecord = DlqRecord(stream: Stream, offset: nat, reason: DlqReason)

  /** How far the consumer is with the message at its position. */
  datatype Phase =
    | Trying(attempt: int)
    | Applying(attempt: int)
    | Publishing(reason: DlqReason, attempt: int)
    | Committing

  /**
   * One partition. `committed` is the group's stored offset, if there is one; `base` is where the
   * subscription last began without one.
   */
  datatype Partition = Partition(log: seq<Message>, base: nat, position: nat, committed: Option<nat>, phase: Phase)

  datatype World = World(maxAttempts: int, db: Db, partitions: map<Stream, Partition>, dlq: seq<DlqRecord>)

  // ---------- What the handlers answer ----------

  /** What a call into a handler's service comes back with. */
  datatype Reply = Raises(failure: Failure) | Proceeds | Settled | Quarantines(reason: DlqReason)

  /** Where a transaction fails, if it does; a failure after the commit leaves its effect behind. */
  datatype Trouble = NoTrouble | BeforeCommit(failure: Failure) | AfterCommit(failure: Failure)

  /** inspect, and for a snapshot the check that it carries a marker. */
  function InspectOf(db: Db, m: Message): InspectResult
    requires !m.Unparsable?
  {
    match m
    case EventMessage(e) => InspectEvent(db, e)
    case SnapshotMessage(s) =>
      var r := InspectSnapshot(db, s);
      if r.Proceed? && s.acknowledgement.None? then Quarantine(MissingAckMarker) else r
  }

  function InspectReply(db: Db, m: Message, fault: Option<Failure>): Reply {
    if m.Unparsable? then Quarantines(SchemaInvalid)
    else if fault.Some? then Raises(fault.value)
    else
      match InspectOf(db, m)
      case Proceed => Proceeds
      case Skip => Settled
      case Quarantine(reason) => Quarantines(Inadmissible(reason))
      case InspectFaulted(_) => Raises(Unrecognised)
  }

  function Deliver(db: Db, m: Message, at: Coordinates, now: Time, basisPoints: int): (Db, ApplyResult)
    requires !m.Unparsable?
  {
    match m
    case EventMessage(e) => RunEvent(db, e, at, now)
    case SnapshotMessage(s) => RunSnapshot(db, s, at, now, basisPoints)
  }

  function ApplyReply(r: ApplyResult, trouble: Trouble): Reply {
    if !trouble.NoTrouble? then Raises(trouble.failure)
    else if r.ApplyFaulted? then Raises(Unrecognised)
    else if r.Quarantined? then Quarantines(Inadmissible(r.reason))
    else Settled
  }

  // ---------- The steps ----------

  /**
   * After an error: a permanent one is quarantined at once; any other is retried while attempts
   * remain. When they are used up, a recognised transient error is thrown on, so the message is
   * delivered again, and an unrecognised one is quarantined.
   */
  function AfterFailure(maxAttempts: int, attempt: int, f: Failure): Phase {
    if f.Permanent? then Publishing(HandlerFailure, 1)
    else if attempt < maxAttempts then Trying(attempt + 1)
    else if f.Transient? then Trying(1)
    else Publishing(HandlerFailure, 1)
  }

  function Follow(maxAttempts: int, attempt: int, r: Reply): Phase {
    match r
    case Raises(f) => AfterFailure(maxAttempts, attempt, f)
    case Proceeds => Applying(attempt)
    case Settled => Committing
    case Quarantines(reason) => Publishing(reason, 1)
  }

  /** Whether a publish or a commit took effect, and whether the caller learned of it. */
  datatype Sending = Sent | SentUnheard(failure: Failure) | NotSent(failure: Failure)

  datatype Committal = Stored | StoredUnheard | NotStored

  datatype Move =
    | Produce(at: Stream, m: Message)
    | TryInspect(at: Stream, fault: Option<Failure>)
    | TryApply(at: Stream, trouble: Trouble, now: Time, basisPoints: int)
    | Publish(at: Stream, sending: Sending)
    | Commit(at: Stream, committal: Committal)
    | Restart(at: Stream)
    | Other(op: Op)

  /** The partition has a message at its position and is in a phase of this kind. */
  predicate Handling(w: World, at: Stream) {
    at in w.partitions && w.partitions[at].position < |w.partitions[at].log|
  }

  function Current(w: World, at: Stream): Message
    requires Handling(w, at)
  {
    w.partitions[at].log[w.partitions[at].position]
  }

  function Place(w: World, at: Stream): Coordinates
    requires at in w.partitions
  {
    Coordinates(at.topic, at.partition, w.partitions[at].position)
  }

  function With(w: World, at: Stream, p: Partition): World {
    w.(partitions := w.partitions[at := p])
  }

  function Inspected(p: Partition, maxAttempts: int, r: Reply): Partition
    requires p.phase.Trying?
  {
    p.(phase := Follow(maxAttempts, p.phase.attempt, r))
  }

  function AppliedPartition(p: Partition, maxAttempts: int, r: Reply): Partition
    requires p.phase.Applying?
  {
    p.(phase := Follow(maxAttempts, p.phase.attempt, r))
  }

  function Published(p: Partition, maxAttempts: int, sending: Sending): Partition
    requires p.phase.Publishing?
  {
    p.(phase :=
      if sending.Sent? then Committing
      else if sending.failure.Permanent? || p.phase.attempt >= maxAttempts then Trying(1)
      else Publishing(p.phase.reason, p.phase.attempt + 1))
  }

  function CommittedPartition(p: Partition, committal: Committal): Partition {
    match committal
    case Stored => p.(committed := Some(p.position + 1), position := p.position + 1, phase := Trying(1))
    case StoredUnheard => p.(committed := Some(p.position + 1), phase := Trying(1))
    case NotStored => p.(phase := Trying(1))
  }

  /** A restart resumes at the stored offset, or without one at the end of the log (fromBeginning: false). */
  function Restarted(p: Partition): Partition {
    if p.committed.Some? then p.(position := p.committed.value, phase := Trying(1))
    else p.(base := |p.log|, position := |p.log|, phase := Trying(1))
  }

  function Next(w: World, move: Move): World {
    match move
    case Produce(at, m) =>
      if at in w.partitions then With(w, at, w.partitions[at].(log := w.partitions[at].log + [m])) else w
    case TryInspect(at, fault) =>
      if Handling(w, at) && w.partitions[at].phase.Trying? then
        With(w, at, Inspected(w.partitions[at], w.maxAttempts, InspectReply(w.db, Current(w, at), fault)))
      else w
    case TryApply(at, trouble, now, basisPoints) =>
      if Applicable(w, at) then
        var (db, r) := Deliver(w.db, Current(w, at), Place(w, at), now, basisPoints);
        With(w.(db := if trouble.BeforeCommit? then w.db else db), at,
             AppliedPartition(w.partitions[at], w.maxAttempts, ApplyReply(r, trouble)))
      else w
    case Publish(at, sending) =>
      if Handling(w, at) && w.partitions[at].phase.Publishing? then
        var record := DlqRecord(at, w.partitions[at].position, w.partitions[at].phase.reason);
        With(w.(dlq := if sending.NotSent? then w.dlq else w.dlq + [record]), at,
             Published(w.partitions[at], w.maxAttempts, sending))
      else w
    case Commit(at, committal) =>
      if Handling(w, at) && w.partitions[at].phase.Committing? then
        With(w, at, CommittedPartition(w.partitions[at], committal))
      else w
    case Restart(at) =>
      if at in w.partitions then With(w, at, Restarted(w.partitions[at])) else w
    case Other(op) => w.(db := Step(w.db, op))
  }

  predicate Applicable(w: World, at: Stream) {
    Handling(w, at) && w.partitions[at].phase.Applying? && !Current(w, at).Unparsable?
  }

  function Execute(w: World, moves: seq<Move>): World {
    if moves == [] then w else Next(Execute(w, moves[..|moves| - 1]), moves[|moves| - 1])
  }

  /** Produced snapshots carry amounts the parser accepts; the other operations are not deliveries. */
  predicate Admissible(move: Move) {
    && (move.Produce? && move.m.SnapshotMessage? ==> Parsed(move.m.s))
    && (move.Other? ==> WellFormed(move.op) && !move.op.DeliverEvent? && !move.op.DeliverSnapshot?)
  }

  predicate AllAdmissible(moves: seq<Move>) {
    forall k :: 0 <= k < |moves| ==> Admissible(moves[k])
  }

  /** Before anything has happened: no program, nothing quarantined, every partition still empty. */
  predicate Fresh(w: World) {
    && w.db == EMPTY && w.dlq == []
    && forall at :: at in w.partitions ==> w.partitions[at] == Partition([], 0, 0, None, Trying(1))
  }

  // ---------- The run of the database inside a run of the protocol ----------

  /** The database operation a step performs, if any. */
  function OpOf(w: World, move: Move): seq<Op> {
    match move
    case Other(op) => [op]
    case TryApply(at, trouble, now, basisPoints) =>
      if Applicable(w, at) && !trouble.BeforeCommit? then
        match Current(w, at)
        case EventMessage(e) => [DeliverEvent(e, Place(w, at), now)]
        case SnapshotMessage(s) => [DeliverSnapshot(s, Place(w, at), now, basisPoints)]
        case Unparsable => []
      else []
    case _ => []
  }

  function OpsOf(w: World, moves: seq<Move>): seq<Op> {
    if moves == [] then [] else
      OpsOf(w, moves[..|moves| - 1]) + OpOf(Execute(w, moves[..|moves| - 1]), moves[|moves| - 1])
  }

  lemma MoveRunsOp(w: World, move: Move)
    ensures Next(w, move).db == Run(w.db, OpOf(w, move))
  {
  }

  /** Every run of the protocol drives the database through one of its own runs. */
  lemma {:induction false} ExecuteRunsOps(w: World, moves: seq<Move>)
    ensures Execute(w, moves).db == Run(w.db, OpsOf(w, moves))
  {
    if moves != [] {
      var before, move := moves[..|moves| - 1], moves[|moves| - 1];
      ExecuteRunsOps(w, before);
      MoveRunsOp(Execute(w, before), move);
      RunSplits(w.db, OpsOf(w, before), OpOf(Execute(w, before), move));
    }
  }

  // ---------- Accounting for messages ----------

  predicate InDlq(dlq: seq<DlqRecord>, at: Stream, offset: nat) {
    exists k :: 0 <= k < |dlq| && dlq[k].stream == at && dlq[k].offset == offset
  }

  /**
   * The database has recorded the message, or has recorded the same content under its version, or,
   * for a snapshot, has applied a newer one.
   */
  predicate Superseded(db: Db, m: Message) {
    match m
    case Unparsable => false
    case EventMessage(e) =>
      Find(db.processed, ById(e.messageId)).Some?
      || (var r := Find(db.processed, ByVersion(e.programId, EventKind, e.version));
          r.Some? && r.value.content == EventContentOf(e))
    case SnapshotMessage(s) =>
      Find(db.processed, ById(s.messageId)).Some?
      || (var r := Find(db.processed, ByVersion(s.programId, SnapshotKind, s.version));
          r.Some? && r.value.content == SnapshotContentOf(s))
      || (s.programId in db.accounts && s.version < db.accounts[s.programId].program.treasuryVersion)
  }

  predicate Accounted(w: World, at: Stream, k: nat, m: Message) {
    InDlq(w.dlq, at, k) || Superseded(w.db, m)
  }

  lemma SupersededIsKept(a: Db, b: Db, m: Message)
    requires Evolves(a, b) && Superseded(a, m)
    ensures Superseded(b, m)
  {
    match m
    case EventMessage(e) =>
      Preserved(a, b, ById(e.messageId));
      Preserved(a, b, ByVersion(e.programId, EventKind, e.version));
    case SnapshotMessage(s) =>
      Preserved(a, b, ById(s.messageId));
      Preserved(a, b, ByVersion(s.programId, SnapshotKind, s.version));
  }

  lemma Preserved(a: Db, b: Db, q: Query)
    requires Evolves(a, b)
    ensures Find(a.processed, q).Some? ==> Find(b.processed, q) == Find(a.processed, q)
  {
    if Find(a.processed, q).Some? { FindPrefix(a.processed, b.processed, q); }
  }

  lemma InDlqIsKept(dlq: seq<DlqRecord>, more: seq<DlqRecord>, at: Stream, k: nat)
    requires dlq <= more && InDlq(dlq, at, k)
    ensures InDlq(more, at, k)
  {
  }

  lemma AccountedIsKept(v: World, w: World, at: Stream, k: nat, m: Message)
    requires Evolves(v.db, w.db) && v.dlq <= w.dlq && Accounted(v, at, k, m)
    ensures Accounted(w, at, k, m)
  {
    if InDlq(v.dlq, at, k) { InDlqIsKept(v.dlq, w.dlq, at, k); } else { SupersededIsKept(v.db, w.db, m); }
  }

  lemma LastIsFound(rows: seq<ProcessedRow>, row: ProcessedRow)
    ensures Find(rows + [row], ById(row.messageId)).Some?
  {
    assert (rows + [row])[|rows|] == row;
    assert row in rows + [row] && Matches(row, ById(row.messageId));
  }

  lemma SettledEventIsSuperseded(db: Db, e: CapacityEvent, at: Coordinates, now: Time)
    requires RunEvent(db, e, at, now).1 in {Applied, AlreadyApplied, EchoSuppressed}
    ensures Superseded(RunEvent(db, e, at, now).0, EventMessage(e))
  {
    if RunEvent(db, e, at, now).1 == AlreadyApplied {
      var a := db.accounts[e.programId];
      KnownEventIsSuperseded(db, e, EventWork(a, e, at, now), IsEcho(a.reservations, e));
    } else {
      var b := AppliedEventShape(db, e, at, now);
      LastIsFound(db.processed, ProcessedEvent(e));
    }
  }

  lemma KnownEventIsSuperseded(db: Db, e: CapacityEvent, work: Result<Account, Fault>, echo: bool)
    requires ConcludeEvent(db, e, work, echo).1 == AlreadyApplied
    ensures ConcludeEvent(db, e, work, echo).0 == db && Superseded(db, EventMessage(e))
  {
  }

  lemma KnownSnapshotIsSuperseded(db: Db, s: Snapshot, work: SnapshotWork)
    requires s.programId in db.accounts
    requires ConcludeSnapshot(db, s, db.accounts[s.programId].program.treasuryVersion, work).1 == Ignored
    ensures ConcludeSnapshot(db, s, db.accounts[s.programId].program.treasuryVersion, work).0 == db
    ensures Superseded(db, SnapshotMessage(s))
  {
  }

  lemma SettledSnapshotIsSuperseded(db: Db, s: Snapshot, at: Coordinates, now: Time, basisPoints: int)
    requires RunSnapshot(db, s, at, now, basisPoints).1 in {Applied, Ignored}
    ensures Superseded(RunSnapshot(db, s, at, now, basisPoints).0, SnapshotMessage(s))
  {
    if RunSnapshot(db, s, at, now, basisPoints).1 == Ignored {
      var a := db.accounts[s.programId];
      KnownSnapshotIsSuperseded(db, s, SnapshotWorkOf(a, s, s.acknowledgement.value, at, now, basisPoints));
    } else {
      var work := AppliedShape(db, s, at, now, basisPoints);
      LastIsFound(db.processed, ProcessedSnapshot(s));
    }
  }

  lemma EventReplies(db: Db, e: CapacityEvent, at: Coordinates, now: Time)
    ensures RunEvent(db, e, at, now).1 != Ignored
  {
  }

  lemma SnapshotReplies(db: Db, s: Snapshot, at: Coordinates, now: Time, basisPoints: int)
    ensures RunSnapshot(db, s, at, now, basisPoints).1 != AlreadyApplied
    ensures RunSnapshot(db, s, at, now, basisPoints).1 != EchoSuppressed
  {
  }

  /** A message whose handling settles is accounted for in the database it leaves. */
  lemma SettledIsSuperseded(db: Db, m: Message, at: Coordinates, now: Time, basisPoints: int)
    requires !m.Unparsable? && ApplyReply(Deliver(db, m, at, now, basisPoints).1, NoTrouble).Settled?
    ensures Superseded(Deliver(db, m, at, now, basisPoints).0, m)
  {
    match m
    case EventMessage(e) =>
      EventReplies(db, e, at, now);
      SettledEventIsSuperseded(db, e, at, now);
    case SnapshotMessage(s) =>
      SnapshotReplies(db, s, at, now, basisPoints);
      SettledSnapshotIsSuperseded(db, s, at, now, basisPoints);
  }

  // ---------- No loss ----------

  predicate ParsedLog(log: seq<Message>) {
    forall k :: 0 <= k < |log| && log[k].SnapshotMessage? ==> Parsed(log[k].s)
  }

  /** Where the offsets of a partition stand to one another. */
  predicate Placed(p: Partition) {
    && p.base <= p.position <= |p.log|
    && (p.committed.None? ==> p.position == p.base)
    && (p.committed.Some? ==> p.position <= p.committed.value <= p.position + 1 && p.committed.value <= |p.log|)
    && (!p.phase.Trying? ==> p.position < |p.log|)
    && (p.phase.Applying? ==> !p.log[p.position].Unparsable?)
  }

  /** Everything from `base` up to the position, and up to the stored offset, is accounted for. */
  predicate StreamInv(w: World, at: Stream)
    requires at in w.partitions
  {
    var p := w.partitions[at];
    && Placed(p) && ParsedLog(p.log)
    && (forall k :: p.base <= k < p.position ==> Accounted(w, at, k, p.log[k]))
    && (p.position < |p.log| && (p.phase.Committing? || p.committed == Some(p.position + 1)) ==>
          Accounted(w, at, p.position, p.log[p.position]))
  }

  ghost predicate WorldInv(w: World) {
    Inv(w.db) && forall at :: at in w.partitions ==> StreamInv(w, at)
  }

  /** A stream whose partition did not change keeps its invariant while the rest of the world evolves. */
  lemma StreamIsKept(v: World, w: World, at: Stream)
    requires at in v.partitions && at in w.partitions && w.partitions[at] == v.partitions[at]
    requires StreamInv(v, at) && Evolves(v.db, w.db) && v.dlq <= w.dlq
    ensures StreamInv(w, at)
  {
    var p := w.partitions[at];
    forall k: nat | k < |p.log| && Accounted(v, at, k, p.log[k]) ensures Accounted(w, at, k, p.log[k]) {
      AccountedIsKept(v, w, at, k, p.log[k]);
    }
  }

  /** Replacing one partition and evolving the rest keeps the invariant if the new partition has it. */
  lemma MoveKeepsWorld(v: World, w: World, at: Stream)
    requires WorldInv(v) && at in v.partitions && w.partitions.Keys == v.partitions.Keys
    requires forall b :: b in v.partitions && b != at ==> w.partitions[b] == v.partitions[b]
    requires Inv(w.db) && Evolves(v.db, w.db) && v.dlq <= w.dlq && StreamInv(w, at)
    ensures WorldInv(w)
  {
    forall b | b in w.partitions ensures StreamInv(w, b) {
      if b != at { StreamIsKept(v, w, b); }
    }
  }

  /** A phase that ends an attempt other than by committing asks nothing of the partition. */
  lemma PhaseIsKept(v: World, w: World, at: Stream, phase: Phase)
    requires at in v.partitions && StreamInv(v, at) && Handling(v, at)
    requires Evolves(v.db, w.db) && v.dlq <= w.dlq && w.partitions == v.partitions[at := v.partitions[at].(phase := phase)]
    requires phase.Applying? ==> !Current(v, at).Unparsable?
    requires phase.Committing? ==> Accounted(w, at, v.partitions[at].position, Current(v, at))
    ensures StreamInv(w, at)
  {
    var p := v.partitions[at];
    forall k: nat | k < |p.log| && Accounted(v, at, k, p.log[k]) ensures Accounted(w, at, k, p.log[k]) {
      AccountedIsKept(v, w, at, k, p.log[k]);
    }
  }

  lemma SelfEvolves(db: Db)
    ensures Evolves(db, db)
  {
  }

  /** Moving one partition to another phase, over a database that has evolved, keeps the invariant. */
  lemma PhaseKeepsWorld(w: World, at: Stream, db: Db, phase: Phase)
    requires WorldInv(w) && Handling(w, at) && Inv(db) && Evolves(w.db, db)
    requires phase.Applying? ==> !Current(w, at).Unparsable?
    requires phase.Committing? ==> Superseded(db, Current(w, at))
    ensures WorldInv(With(w.(db := db), at, w.partitions[at].(phase := phase)))
  {
    var after := With(w.(db := db), at, w.partitions[at].(phase := phase));
    PhaseIsKept(w, after, at, phase);
    MoveKeepsWorld(w, after, at);
  }

  /** What inspection answers, and what that says of the message. */
  lemma InspectReplies(db: Db, m: Message, fault: Option<Failure>)
    ensures InspectReply(db, m, fault).Proceeds? ==> !m.Unparsable?
    ensures InspectReply(db, m, fault).Settled? ==> Superseded(db, m)
  {
  }

  lemma InspectKeepsWorld(w: World, at: Stream, fault: Option<Failure>)
    requires WorldInv(w) && Handling(w, at) && w.partitions[at].phase.Trying?
    ensures WorldInv(Next(w, TryInspect(at, fault)))
  {
    var r := InspectReply(w.db, Current(w, at), fault);
    SelfEvolves(w.db);
    InspectReplies(w.db, Current(w, at), fault);
    PhaseKeepsWorld(w, at, w.db, Follow(w.maxAttempts, w.partitions[at].phase.attempt, r));
  }

  lemma DeliverKeepsInv(db: Db, m: Message, at: Coordinates, now: Time, basisPoints: int)
    requires Inv(db) && !m.Unparsable? && (m.SnapshotMessage? ==> Parsed(m.s))
    ensures Inv(Deliver(db, m, at, now, basisPoints).0) && Evolves(db, Deliver(db, m, at, now, basisPoints).0)
  {
    match m
    case EventMessage(e) =>
      EventKeepsInv(db, e, at, now);
      DeliveryEvolves(db, e, at, now);
    case SnapshotMessage(s) =>
      SnapshotKeepsInv(db, s, at, now, basisPoints);
      CorrectionEvolves(db, s, at, now, basisPoints);
  }

  lemma ReplyKeepsWorld(w: World, at: Stream, db: Db, r: Reply)
    requires WorldInv(w) && Handling(w, at) && w.partitions[at].phase.Applying? && !Current(w, at).Unparsable?
    requires Inv(db) && Evolves(w.db, db) && (r.Settled? ==> Superseded(db, Current(w, at)))
    ensures WorldInv(With(w.(db := db), at, AppliedPartition(w.partitions[at], w.maxAttempts, r)))
  {
    hide WorldInv, Inv, Evolves, Superseded;
    PhaseKeepsWorld(w, at, db, Follow(w.maxAttempts, w.partitions[at].phase.attempt, r));
  }

  /** What a delivery leaves in the database, and that a settled one has recorded its message. */
  lemma DeliveryReplies(db: Db, m: Message, at: Coordinates, now: Time, basisPoints: int, trouble: Trouble)
    requires Inv(db) && !m.Unparsable? && (m.SnapshotMessage? ==> Parsed(m.s))
    ensures var (after, r) := Deliver(db, m, at, now, basisPoints);
      && Inv(after) && Evolves(db, after)
      && (ApplyReply(r, trouble).Settled? ==> trouble.NoTrouble? && Superseded(after, m))
  {
    DeliverKeepsInv(db, m, at, now, basisPoints);
    if ApplyReply(Deliver(db, m, at, now, basisPoints).1, trouble).Settled? { SettledIsSuperseded(db, m, at, now, basisPoints); }
  }

  lemma ApplyKeepsWorld(w: World, at: Stream, trouble: Trouble, now: Time, basisPoints: int)
    requires WorldInv(w) && Applicable(w, at)
    ensures WorldInv(Next(w, TryApply(at, trouble, now, basisPoints)))
  {
    var (db, r) := Deliver(w.db, Current(w, at), Place(w, at), now, basisPoints);
    DeliveryReplies(w.db, Current(w, at), Place(w, at), now, basisPoints, trouble);
    SelfEvolves(w.db);
    ReplyKeepsWorld(w, at, if trouble.BeforeCommit? then w.db else db, ApplyReply(r, trouble));
  }

  lemma PublishKeepsWorld(w: World, at: Stream, sending: Sending)
    requires WorldInv(w) && Handling(w, at) && w.partitions[at].phase.Publishing?
    ensures WorldInv(Next(w, Publish(at, sending)))
  {
    var after := Next(w, Publish(at, sending));
    SelfEvolves(w.db);
    if sending.Sent? { assert after.dlq[|w.dlq|].stream == at && after.dlq[|w.dlq|].offset == w.partitions[at].position; }
    PhaseIsKept(w, after, at, after.partitions[at].phase);
    MoveKeepsWorld(w, after, at);
  }

  lemma CommitKeepsWorld(w: World, at: Stream, committal: Committal)
    requires WorldInv(w) && Handling(w, at) && w.partitions[at].phase.Committing?
    ensures WorldInv(Next(w, Commit(at, committal)))
  {
    hide Superseded, InDlq, Evolves, Inv;
    var after := Next(w, Commit(at, committal));
    SelfEvolves(w.db);
    assert StreamInv(w, at);
    assert forall k: nat, m: Message :: Accounted(w, at, k, m) == Accounted(after, at, k, m);
    MoveKeepsWorld(w, after, at);
  }

  lemma RestartKeepsWorld(w: World, at: Stream)
    requires WorldInv(w) && at in w.partitions
    ensures WorldInv(Next(w, Restart(at)))
  {
    hide Superseded, InDlq, Evolves, Inv;
    var after := Next(w, Restart(at));
    SelfEvolves(w.db);
    assert StreamInv(w, at);
    assert forall k: nat, m: Message :: Accounted(w, at, k, m) == Accounted(after, at, k, m);
    MoveKeepsWorld(w, after, at);
  }

  lemma ProduceKeepsWorld(w: World, at: Stream, m: Message)
    requires WorldInv(w) && at in w.partitions && (m.SnapshotMessage? ==> Parsed(m.s))
    ensures WorldInv(Next(w, Produce(at, m)))
  {
    hide Superseded, InDlq, Evolves, Inv;
    var after := Next(w, Produce(at, m));
    SelfEvolves(w.db);
    assert StreamInv(w, at);
    assert forall k: nat, x: Message :: Accounted(w, at, k, x) == Accounted(after, at, k, x);
    MoveKeepsWorld(w, after, at);
  }

  lemma OtherKeepsWorld(w: World, op: Op)
    requires WorldInv(w) && WellFormed(op)
    ensures WorldInv(Next(w, Other(op)))
  {
    var after := Next(w, Other(op));
    StepKeepsInv(w.db, op);
    StepEvolves(w.db, op);
    forall at | at in after.partitions ensures StreamInv(after, at) { StreamIsKept(w, after, at); }
  }

  lemma NextKeepsWorld(w: World, move: Move)
    requires WorldInv(w) && Admissible(move)
    ensures WorldInv(Next(w, move))
  {
    if Next(w, move) != w {
      match move
      case Produce(at, m) => ProduceKeepsWorld(w, at, m);
      case TryInspect(at, fault) => InspectKeepsWorld(w, at, fault);
      case TryApply(at, trouble, now, basisPoints) => ApplyKeepsWorld(w, at, trouble, now, basisPoints);
      case Publish(at, sending) => PublishKeepsWorld(w, at, sending);
      case Commit(at, committal) => CommitKeepsWorld(w, at, committal);
      case Restart(at) => RestartKeepsWorld(w, at);
      case Other(op) => OtherKeepsWorld(w, op);
    }
  }

  lemma FreshIsGood(w: World)
    requires Fresh(w)
    ensures WorldInv(w)
  {
    assert Inv(EMPTY);
  }

  lemma {:induction false} ExecuteKeepsWorld(w: World, moves: seq<Move>)
    requires WorldInv(w) && AllAdmissible(moves)
    ensures WorldInv(Execute(w, moves))
  {
    if moves != [] {
      ExecuteKeepsWorld(w, moves[..|moves| - 1]);
      NextKeepsWorld(Execute(w, moves[..|moves| - 1]), moves[|moves| - 1]);
    }
  }

  lemma BelowCommitted(w: World, at: Stream, k: nat)
    requires WorldInv(w) && at in w.partitions
    requires var p := w.partitions[at]; p.base <= k && p.committed.Some? && k < p.committed.value
    ensures k < |w.partitions[at].log| && Accounted(w, at, k, w.partitions[at].log[k])
  {
    assert StreamInv(w, at);
  }

  /**
   * No loss: whatever fails, crashes or is delivered again, every message between where the
   * subscription began and the stored offset is recorded, superseded or in the dead-letter queue.
   */
  lemma NothingCommittedIsLost(w: World, moves: seq<Move>, at: Stream, k: nat)
    requires Fresh(w) && AllAdmissible(moves) && at in Execute(w, moves).partitions
    requires var p := Execute(w, moves).partitions[at];
      p.base <= k && p.committed.Some? && k < p.committed.value
    ensures k < |Execute(w, moves).partitions[at].log|
    ensures Accounted(Execute(w, moves), at, k, Execute(w, moves).partitions[at].log[k])
  {
    FreshIsGood(w);
    ExecuteKeepsWorld(w, moves);
    BelowCommitted(Execute(w, moves), at, k);
  }
}
