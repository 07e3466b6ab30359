/** Why, in any run of the protocol, a message came to be dead-lettered or committed. */
module Causes {
  import opened Wrappers
  import opened Domain
  import opened Tables
  import opened Evolution
  import opened Consumer

  // ---------- The replies behind a run ----------

  /** The step calls the handler's service for the message at its stream's position. */
  predicate Attempts(w: World, move: Move) {
    (move.TryInspect? && Handling(w, move.at) && w.partitions[move.at].phase.Trying?)
    || (move.TryApply? && Applicable(w, move.at))
  }

  function ReplyTo(w: World, move: Move): Reply
    requires Attempts(w, move)
  {
    match move
    case TryInspect(at, fault) => InspectReply(w.db, Current(w, at), fault)
    case TryApply(at, trouble, now, basisPoints) =>
      ApplyReply(Deliver(w.db, Current(w, at), Place(w, at), now, basisPoints).1, trouble)
  }

  /** The step is an attempt at the message at this offset. */
  predicate AttemptsAt(w: World, move: Move, at: Stream, offset: nat) {
    Attempts(w, move) && move.at == at && w.partitions[at].position == offset
  }

  /**
   * What justifies a dead-letter record: for a handler failure a permanent error, or an unrecognised
   * one at the bound of attempts; for any other reason the handler's own verdict.
   */
  predicate Warrants(r: Reply, attempt: int, maxAttempts: int, reason: DlqReason) {
    if reason.HandlerFailure? then
      r.Raises? && (r.failure.Permanent? || (r.failure.Unrecognised? && attempt >= maxAttempts))
    else r == Quarantines(reason)
  }

  function AttemptNumber(phase: Phase): int
    requires phase.Trying? || phase.Applying?
  {
    phase.attempt
  }

  predicate Condemns(w: World, move: Move, at: Stream, offset: nat, reason: DlqReason) {
    && AttemptsAt(w, move, at, offset)
    && Warrants(ReplyTo(w, move), AttemptNumber(w.partitions[at].phase), w.maxAttempts, reason)
  }

  predicate Settles(w: World, move: Move, at: Stream, offset: nat) {
    AttemptsAt(w, move, at, offset) && ReplyTo(w, move).Settled?
  }

  /** Some step of the run condemned the message, or settled it. */
  predicate Condemned(w: World, moves: seq<Move>, at: Stream, offset: nat, reason: DlqReason) {
    exists k :: 0 <= k < |moves| && Condemns(Execute(w, moves[..k]), moves[k], at, offset, reason)
  }

  predicate SettledIn(w: World, moves: seq<Move>, at: Stream, offset: nat) {
    exists k :: 0 <= k < |moves| && Settles(Execute(w, moves[..k]), moves[k], at, offset)
  }

  predicate Resolved(w: World, moves: seq<Move>, at: Stream, offset: nat) {
    SettledIn(w, moves, at, offset) || InDlq(Execute(w, moves).dlq, at, offset)
  }

  // ---------- What every run keeps ----------

  predicate RecordsCondemned(w: World, moves: seq<Move>) {
    var dlq := Execute(w, moves).dlq;
    forall d :: 0 <= d < |dlq| ==> Condemned(w, moves, dlq[d].stream, dlq[d].offset, dlq[d].reason)
  }

  predicate StreamCaused(w: World, moves: seq<Move>, at: Stream)
    requires at in Execute(w, moves).partitions
  {
    var p := Execute(w, moves).partitions[at];
    && (p.phase.Publishing? ==> Condemned(w, moves, at, p.position, p.phase.reason))
    && (p.phase.Committing? || p.committed == Some(p.position + 1) ==> Resolved(w, moves, at, p.position))
    && (forall k :: p.base <= k < p.position ==> Resolved(w, moves, at, k))
  }

  lemma CondemnedIsKept(w: World, moves: seq<Move>, move: Move, at: Stream, offset: nat, reason: DlqReason)
    requires Condemned(w, moves, at, offset, reason)
    ensures Condemned(w, moves + [move], at, offset, reason)
  {
    var k :| 0 <= k < |moves| && Condemns(Execute(w, moves[..k]), moves[k], at, offset, reason);
    assert (moves + [move])[..k] == moves[..k] && (moves + [move])[k] == moves[k];
  }

  lemma ExecuteOneMore(w: World, moves: seq<Move>, move: Move)
    ensures Execute(w, moves + [move]) == Next(Execute(w, moves), move)
  {
    assert (moves + [move])[..|moves|] == moves;
  }

  lemma DlqGrows(w: World, move: Move)
    ensures w.dlq <= Next(w, move).dlq
  {
  }

  lemma {:induction false} DlqOnlyGrows(w: World, moves: seq<Move>)
    ensures w.dlq <= Execute(w, moves).dlq
  {
    if moves != [] {
      DlqOnlyGrows(w, moves[..|moves| - 1]);
      DlqGrows(Execute(w, moves[..|moves| - 1]), moves[|moves| - 1]);
    }
  }

  /** A record that reached the queue, whether or not its producer heard of it, is there after any later run. */
  lemma {:induction false} PublishedIsKept(w: World, at: Stream, sending: Sending, moves: seq<Move>)
    requires Handling(w, at) && w.partitions[at].phase.Publishing? && !sending.NotSent?
    ensures DlqRecord(at, w.partitions[at].position, w.partitions[at].phase.reason)
      in Execute(Next(w, Publish(at, sending)), moves).dlq
  {
    var after := Next(w, Publish(at, sending));
    var record := DlqRecord(at, w.partitions[at].position, w.partitions[at].phase.reason);
    assert after.dlq[|w.dlq|] == record;
    DlqOnlyGrows(after, moves);
    assert Execute(after, moves).dlq[|w.dlq|] == record;
  }

  lemma ResolvedIsKept(w: World, moves: seq<Move>, move: Move, at: Stream, offset: nat)
    requires Resolved(w, moves, at, offset)
    ensures Resolved(w, moves + [move], at, offset)
  {
    ExecuteOneMore(w, moves, move);
    DlqGrows(Execute(w, moves), move);
    if SettledIn(w, moves, at, offset) {
      var k :| 0 <= k < |moves| && Settles(Execute(w, moves[..k]), moves[k], at, offset);
      assert (moves + [move])[..k] == moves[..k] && (moves + [move])[k] == moves[k];
    } else {
      InDlqIsKept(Execute(w, moves).dlq, Execute(w, moves + [move]).dlq, at, offset);
    }
  }

  lemma LastCondemns(w: World, moves: seq<Move>, move: Move, at: Stream, offset: nat, reason: DlqReason)
    requires Condemns(Execute(w, moves), move, at, offset, reason)
    ensures Condemned(w, moves + [move], at, offset, reason)
  {
    assert (moves + [move])[..|moves|] == moves && (moves + [move])[|moves|] == move;
  }

  lemma LastSettles(w: World, moves: seq<Move>, move: Move, at: Stream, offset: nat)
    requires Settles(Execute(w, moves), move, at, offset)
    ensures Resolved(w, moves + [move], at, offset)
  {
    assert (moves + [move])[..|moves|] == moves && (moves + [move])[|moves|] == move;
  }

  /** Which phase an attempt leads to: publishing only when condemned, committing only when settled. */
  lemma AttemptLeads(w: World, move: Move)
    requires Attempts(w, move)
    ensures move.at in Next(w, move).partitions
    ensures var p, q := w.partitions[move.at], Next(w, move).partitions[move.at];
      && q == p.(phase := q.phase)
      && (q.phase.Publishing? ==> Condemns(w, move, move.at, p.position, q.phase.reason))
      && (q.phase.Committing? ==> Settles(w, move, move.at, p.position))
    ensures Next(w, move).dlq == w.dlq
    ensures forall b :: b in w.partitions && b != move.at ==> b in Next(w, move).partitions && Next(w, move).partitions[b] == w.partitions[b]
    ensures Next(w, move).partitions.Keys == w.partitions.Keys
  {
  }

  /** What was so for a partition stays so over a step that leaves its offsets and phase as they were. */
  lemma CausedIsKept(w: World, moves: seq<Move>, move: Move, at: Stream)
    requires at in Execute(w, moves).partitions && at in Execute(w, moves + [move]).partitions && StreamCaused(w, moves, at)
    requires var p, q := Execute(w, moves).partitions[at], Execute(w, moves + [move]).partitions[at];
      q.base == p.base && q.position == p.position && q.committed == p.committed && (q.phase == p.phase || q.phase.Trying? || q.phase.Applying?)
    ensures StreamCaused(w, moves + [move], at)
  {
    hide Resolved, Condemned, Next;
    var p := Execute(w, moves).partitions[at];
    if p.phase.Publishing? { CondemnedIsKept(w, moves, move, at, p.position, p.phase.reason); }
    forall k: nat | Resolved(w, moves, at, k) ensures Resolved(w, moves + [move], at, k) {
      ResolvedIsKept(w, moves, move, at, k);
    }
  }

  lemma AttemptIsCaused(w: World, moves: seq<Move>, move: Move)
    requires Attempts(Execute(w, moves), move) && StreamCaused(w, moves, move.at)
    ensures move.at in Execute(w, moves + [move]).partitions && StreamCaused(w, moves + [move], move.at)
  {
    hide Resolved, Condemned, Next;
    var v, at := Execute(w, moves), move.at;
    ExecuteOneMore(w, moves, move);
    AttemptLeads(v, move);
    var p, q := v.partitions[at], Next(v, move).partitions[at];
    if q.phase.Publishing? { LastCondemns(w, moves, move, at, p.position, q.phase.reason); }
    if q.phase.Committing? { LastSettles(w, moves, move, at, p.position); }
    forall k: nat | Resolved(w, moves, at, k) ensures Resolved(w, moves + [move], at, k) {
      ResolvedIsKept(w, moves, move, at, k);
    }
  }

  lemma PublishLeads(w: World, at: Stream, sending: Sending)
    requires Handling(w, at) && w.partitions[at].phase.Publishing?
    ensures at in Next(w, Publish(at, sending)).partitions
    ensures var p, q := w.partitions[at], Next(w, Publish(at, sending)).partitions[at];
      && q == p.(phase := q.phase) && !q.phase.Applying?
      && (q.phase.Publishing? ==> q.phase.reason == p.phase.reason)
      && (q.phase.Committing? ==> InDlq(Next(w, Publish(at, sending)).dlq, at, p.position))
  {
    var dlq := Next(w, Publish(at, sending)).dlq;
    if sending.Sent? { assert dlq[|w.dlq|].stream == at && dlq[|w.dlq|].offset == w.partitions[at].position; }
  }

  lemma RecordResolves(w: World, moves: seq<Move>, at: Stream, offset: nat)
    ensures InDlq(Execute(w, moves).dlq, at, offset) ==> Resolved(w, moves, at, offset)
  {
  }

  lemma PublishIsCaused(w: World, moves: seq<Move>, at: Stream, sending: Sending)
    requires Handling(Execute(w, moves), at) && Execute(w, moves).partitions[at].phase.Publishing? && StreamCaused(w, moves, at)
    ensures var move := Publish(at, sending);
      at in Execute(w, moves + [move]).partitions && StreamCaused(w, moves + [move], at)
  {
    hide Resolved, Condemned, Next;
    var v, move := Execute(w, moves), Publish(at, sending);
    ExecuteOneMore(w, moves, move);
    PublishLeads(v, at, sending);
    RecordResolves(w, moves + [move], at, v.partitions[at].position);
    CondemnedIsKept(w, moves, move, at, v.partitions[at].position, v.partitions[at].phase.reason);
    forall k: nat | Resolved(w, moves, at, k) ensures Resolved(w, moves + [move], at, k) {
      ResolvedIsKept(w, moves, move, at, k);
    }
  }

  lemma CommitIsCaused(w: World, moves: seq<Move>, at: Stream, committal: Committal)
    requires Handling(Execute(w, moves), at) && Execute(w, moves).partitions[at].phase.Committing? && StreamCaused(w, moves, at)
    ensures var move := Commit(at, committal);
      at in Execute(w, moves + [move]).partitions && StreamCaused(w, moves + [move], at)
  {
    hide Resolved, Condemned;
    var move := Commit(at, committal);
    ExecuteOneMore(w, moves, move);
    forall k: nat | Resolved(w, moves, at, k) ensures Resolved(w, moves + [move], at, k) {
      ResolvedIsKept(w, moves, move, at, k);
    }
  }

  lemma RestartLeads(w: World, at: Stream)
    requires at in w.partitions
    ensures at in Next(w, Restart(at)).partitions && Next(w, Restart(at)).partitions[at] == Restarted(w.partitions[at])
  {
  }

  lemma RestartIsCaused(w: World, moves: seq<Move>, at: Stream)
    requires at in Execute(w, moves).partitions && Placed(Execute(w, moves).partitions[at]) && StreamCaused(w, moves, at)
    ensures at in Execute(w, moves + [Restart(at)]).partitions && StreamCaused(w, moves + [Restart(at)], at)
  {
    hide Resolved, Condemned, Next, Execute;
    ExecuteOneMore(w, moves, Restart(at));
    RestartLeads(Execute(w, moves), at);
    forall k: nat | Resolved(w, moves, at, k) ensures Resolved(w, moves + [Restart(at)], at, k) {
      ResolvedIsKept(w, moves, Restart(at), at, k);
    }
  }

  /** The step is the stream's own, and acts. */
  predicate ActsOn(w: World, move: Move, at: Stream) {
    match move
    case TryInspect(b, _) => b == at && Attempts(w, move)
    case TryApply(b, _, _, _) => b == at && Attempts(w, move)
    case Publish(b, _) => b == at && Handling(w, at) && w.partitions[at].phase.Publishing?
    case Commit(b, _) => b == at && Handling(w, at) && w.partitions[at].phase.Committing?
    case Restart(b) => b == at && at in w.partitions
    case _ => false
  }

  lemma OthersLeavePartition(w: World, move: Move, at: Stream)
    requires at in w.partitions && !ActsOn(w, move, at)
    ensures at in Next(w, move).partitions
    ensures Next(w, move).partitions[at] == w.partitions[at].(log := Next(w, move).partitions[at].log)
  {
  }

  lemma NextIsCaused(w: World, moves: seq<Move>, move: Move, at: Stream)
    requires at in Execute(w, moves).partitions && Placed(Execute(w, moves).partitions[at]) && StreamCaused(w, moves, at)
    ensures at in Execute(w, moves + [move]).partitions && StreamCaused(w, moves + [move], at)
  {
    ExecuteOneMore(w, moves, move);
    if !ActsOn(Execute(w, moves), move, at) {
      OthersLeavePartition(Execute(w, moves), move, at);
      CausedIsKept(w, moves, move, at);
    } else {
      match move
      case TryInspect(_, _) => AttemptIsCaused(w, moves, move);
      case TryApply(_, _, _, _) => AttemptIsCaused(w, moves, move);
      case Publish(_, sending) => PublishIsCaused(w, moves, at, sending);
      case Commit(_, committal) => CommitIsCaused(w, moves, at, committal);
      case Restart(_) => RestartIsCaused(w, moves, at);
    }
  }

  /** The records a step adds: at most one, by a stream that was publishing it. */
  lemma NewRecordsArePublished(w: World, move: Move, d: nat)
    requires |w.dlq| <= d < |Next(w, move).dlq|
    ensures move.Publish? && Handling(w, move.at) && w.partitions[move.at].phase.Publishing?
    ensures Next(w, move).dlq[d] == DlqRecord(move.at, w.partitions[move.at].position, w.partitions[move.at].phase.reason)
  {
  }

  lemma NextRecordsCondemned(w: World, moves: seq<Move>, move: Move)
    requires RecordsCondemned(w, moves)
    requires forall at :: at in Execute(w, moves).partitions ==> StreamCaused(w, moves, at)
    ensures RecordsCondemned(w, moves + [move])
  {
    var v := Execute(w, moves);
    ExecuteOneMore(w, moves, move);
    DlqGrows(v, move);
    var dlq := Next(v, move).dlq;
    forall d | 0 <= d < |dlq| ensures Condemned(w, moves + [move], dlq[d].stream, dlq[d].offset, dlq[d].reason) {
      if d >= |v.dlq| { NewRecordsArePublished(v, move, d); } else { assert dlq[d] == v.dlq[d]; }
      CondemnedIsKept(w, moves, move, dlq[d].stream, dlq[d].offset, dlq[d].reason);
    }
  }

  lemma NextKeepsStreams(w: World, move: Move)
    ensures Next(w, move).partitions.Keys == w.partitions.Keys
  {
  }

  lemma {:induction false} EveryRunIsCaused(w: World, moves: seq<Move>)
    requires Fresh(w) && AllAdmissible(moves)
    ensures RecordsCondemned(w, moves)
    ensures forall at :: at in Execute(w, moves).partitions ==> StreamCaused(w, moves, at)
  {
    if moves != [] {
      var before, move := moves[..|moves| - 1], moves[|moves| - 1];
      assert moves == before + [move];
      EveryRunIsCaused(w, before);
      FreshIsGood(w);
      ExecuteKeepsWorld(w, before);
      NextKeepsStreams(Execute(w, before), move);
      ExecuteOneMore(w, before, move);
      forall at | at in Execute(w, moves).partitions ensures StreamCaused(w, moves, at) {
        assert StreamInv(Execute(w, before), at);
        NextIsCaused(w, before, move, at);
      }
      NextRecordsCondemned(w, before, move);
    }
  }

  // ---------- The two promises ----------

  /**
   * In any run every dead-letter record follows an attempt at its message that warrants it: for a
   * handler failure, a permanent error or an unrecognised one that used up the attempts.
   */
  lemma {:induction false} QuarantineHasACause(w: World, moves: seq<Move>, d: nat)
    requires Fresh(w) && AllAdmissible(moves) && d < |Execute(w, moves).dlq|
    ensures var record := Execute(w, moves).dlq[d];
      exists k :: 0 <= k < |moves| && Condemns(Execute(w, moves[..k]), moves[k], record.stream, record.offset, record.reason)
  {
    EveryRunIsCaused(w, moves);
    var record := Execute(w, moves).dlq[d];
    assert Condemned(w, moves, record.stream, record.offset, record.reason);
  }

  /** Every attempt of the run at the message ended in an error recognised as transient. */
  predicate OnlyTransient(w: World, moves: seq<Move>, at: Stream, offset: nat) {
    forall k :: 0 <= k < |moves| && AttemptsAt(Execute(w, moves[..k]), moves[k], at, offset) ==>
      ReplyTo(Execute(w, moves[..k]), moves[k]) in {Raises(Transient), Proceeds}
  }

  /**
   * In any run a message whose every failure is recognised as transient, and which never succeeds, is
   * neither dead-lettered nor committed, however often it is retried, rejected or delivered again.
   */
  lemma {:induction false} TransientNeitherPublishedNorCommitted(w: World, moves: seq<Move>, at: Stream, offset: nat)
    requires Fresh(w) && AllAdmissible(moves) && at in Execute(w, moves).partitions && OnlyTransient(w, moves, at, offset)
    ensures !InDlq(Execute(w, moves).dlq, at, offset)
    ensures var p := Execute(w, moves).partitions[at];
      p.base <= offset && p.committed.Some? ==> p.committed.value <= offset
  {
    EveryRunIsCaused(w, moves);
    FreshIsGood(w);
    ExecuteKeepsWorld(w, moves);
    assert StreamInv(Execute(w, moves), at);
    NotResolved(w, moves, at, offset);
    BelowCommittedIsResolved(w, moves, at, offset);
  }

  lemma BelowCommittedIsResolved(w: World, moves: seq<Move>, at: Stream, offset: nat)
    requires at in Execute(w, moves).partitions && Placed(Execute(w, moves).partitions[at]) && StreamCaused(w, moves, at)
    ensures var p := Execute(w, moves).partitions[at];
      p.base <= offset && p.committed.Some? && offset < p.committed.value ==> Resolved(w, moves, at, offset)
  {
    hide Resolved, Condemned;
  }

  lemma NotResolved(w: World, moves: seq<Move>, at: Stream, offset: nat)
    requires RecordsCondemned(w, moves) && OnlyTransient(w, moves, at, offset)
    ensures !InDlq(Execute(w, moves).dlq, at, offset) && !SettledIn(w, moves, at, offset)
  {
    var dlq := Execute(w, moves).dlq;
    forall d | 0 <= d < |dlq| ensures !(dlq[d].stream == at && dlq[d].offset == offset) {
      assert Condemned(w, moves, dlq[d].stream, dlq[d].offset, dlq[d].reason);
    }
  }
}
