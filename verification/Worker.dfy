/**
 * processMessage statement by statement: the retry loops, the catch, the quarantine and the offset
 * commit, with every failure and every interleaved step of the rest of the world as a parameter.
 * Each call is proved to be a run of the protocol in Consumer.
 */
module Worker {
  import opened Wrappers
  import opened Domain
  import opened Tables
  import opened Runs
  import opened Evolution
  import opened Consumer

  /** What withRetry throws. */
  datatype Thrown = PermanentError | RetryExhausted(lastError: Failure)

  datatype Handled = Returned(reply: Reply) | Threw(error: Thrown)

  /** How processMessage ends: the offset is committed, or one of its three calls throws. */
  datatype Outcome = Finished | HandlerRejects(error: Thrown) | PublishRejects(error: Thrown) | CommitRejects

  /** What meets one attempt of the handler, and what others do between its two transactions. */
  datatype Attempt = Attempt(fault: Option<Failure>, between: seq<Move>, trouble: Trouble, now: Time, basisPoints: int)

  /** A step that is not this consumer's on this stream. */
  predicate Foreign(move: Move, at: Stream) {
    match move
    case Produce(_, _) => true
    case Other(_) => true
    case TryInspect(b, _) => b != at
    case TryApply(b, _, _, _) => b != at
    case Publish(b, _) => b != at
    case Commit(b, _) => b != at
    case Restart(b) => b != at
  }

  predicate Interferes(moves: seq<Move>, at: Stream) {
    AllAdmissible(moves) && forall k :: 0 <= k < |moves| ==> Foreign(moves[k], at)
  }

  /** From some point on, nothing of the stream was published or committed: it was only handled. */
  predicate OnlyHandled(trace: seq<Move>, from: nat, at: Stream) {
    forall k :: from <= k < |trace| ==> Foreign(trace[k], at) || trace[k].TryInspect? || trace[k].TryApply?
  }

  /** From some point on, the stream was worked on by one uninterrupted consumer. */
  predicate OnlyWorked(trace: seq<Move>, from: nat, at: Stream) {
    forall k :: from <= k < |trace| ==> Foreign(trace[k], at) || !trace[k].Restart?
  }

  /** The same message in hand at the same offsets; only more may have been produced behind it. */
  predicate SameDelivery(p: Partition, q: Partition) {
    q.base == p.base && q.position == p.position && q.committed == p.committed && p.log <= q.log
  }

  /** The dead-letter queue has the same records of the stream. */
  predicate SameRecords(a: seq<DlqRecord>, b: seq<DlqRecord>, at: Stream) {
    a <= b && forall k :: |a| <= k < |b| ==> b[k].stream != at
  }

  /** What a trace and one more attempt leave as it was: the delivery, the stream's records, and only handling. */
  predicate Kept(a: World, b: World, at: Stream, before: seq<Move>, steps: seq<Move>) {
    && at in a.partitions && at in b.partitions
    && SameDelivery(a.partitions[at], b.partitions[at]) && SameRecords(a.dlq, b.dlq, at)
    && OnlyHandled(before + steps, |before|, at)
  }

  lemma KeptThroughout(a: World, b: World, c: World, at: Stream, before: seq<Move>, x: seq<Move>, y: seq<Move>)
    requires Kept(a, b, at, before, x) && Kept(b, c, at, before + x, y)
    ensures before + x + y == before + (x + y) && Kept(a, c, at, before, x + y)
  {
    var mid, after := before + x, before + x + y;
    assert after == before + (x + y);
    assert forall k :: |before| <= k < |mid| ==> after[k] == mid[k];
  }

  /** How a delivery leaves its partition: committed and advanced, or in place to be delivered again. */
  predicate Ended(p: Partition, q: Partition, r: Outcome) {
    && p.log <= q.log && q.base == p.base && q.phase == Trying(1)
    && q.position == (if r.Finished? then p.position + 1 else p.position)
    && (r.Finished? ==> q.committed == Some(p.position + 1))
    && (r.HandlerRejects? || r.PublishRejects? ==> q.committed == p.committed)
  }

  /** A delivery that is handled and then ended, or rejected by the handler, has ended. */
  lemma DeliveryEnds(a: World, b: World, c: World, at: Stream, before: seq<Move>, x: seq<Move>, after: seq<Move>, r: Outcome)
    requires Kept(a, b, at, before, x) && at in c.partitions && before + x <= after && OnlyWorked(after, |before + x|, at)
    requires if r.HandlerRejects? then c == b && b.partitions[at].phase == Trying(1) else Ended(b.partitions[at], c.partitions[at], r)
    ensures Ended(a.partitions[at], c.partitions[at], r) && before <= after && OnlyWorked(after, |before|, at)
    ensures r.HandlerRejects? ==> OnlyHandled(before + x, |before|, at) && SameRecords(a.dlq, c.dlq, at)
    ensures b.partitions[at].position == a.partitions[at].position && a.partitions[at].log <= c.partitions[at].log
    ensures r.Finished? ==> c.partitions[at].base == a.partitions[at].base && c.partitions[at].position == a.partitions[at].position + 1
  {
    assert forall k :: |before| <= k < |before + x| ==> after[k] == (before + x)[k];
  }

  /** A step of someone else, as far as this delivery is concerned. */
  lemma ForeignSteps(w: World, move: Move, at: Stream)
    requires Handling(w, at) && Foreign(move, at)
    ensures var after := Next(w, move);
      && Handling(after, at) && after.maxAttempts == w.maxAttempts
      && after.partitions[at].phase == w.partitions[at].phase
      && SameDelivery(w.partitions[at], after.partitions[at]) && SameRecords(w.dlq, after.dlq, at)
  {
  }

  /** One publish, in the partition it is made for. */
  lemma PublishSteps(w: World, at: Stream, sending: Sending)
    requires Handling(w, at) && w.partitions[at].phase.Publishing?
    ensures var after, p := Next(w, Publish(at, sending)), w.partitions[at];
      && Handling(after, at) && after.maxAttempts == w.maxAttempts
      && after.partitions[at] == Published(p, w.maxAttempts, sending)
      && (sending.Sent? ==> after.dlq == w.dlq + [DlqRecord(at, p.position, p.phase.reason)])
  {
  }

  // ---------- What the retry loops come to ----------

  /** One attempt: the steps it and the others take, the world they leave, and the handler's reply. */
  datatype Attempted = Attempted(moves: seq<Move>, world: World, reply: Reply)

  function ReplyToApply(w: World, at: Stream, a: Attempt): Reply {
    if Applicable(w, at) then
      ApplyReply(Deliver(w.db, Current(w, at), Place(w, at), a.now, a.basisPoints).1, a.trouble)
    else Settled
  }

  function AttemptOf(w: World, at: Stream, a: Attempt): Attempted
    requires Handling(w, at)
  {
    var inspect, apply := TryInspect(at, a.fault), TryApply(at, a.trouble, a.now, a.basisPoints);
    var r := InspectReply(w.db, Current(w, at), a.fault);
    if !r.Proceeds? then Attempted([inspect], Next(w, inspect), r)
    else
      var met := Execute(Next(w, inspect), a.between);
      Attempted([inspect] + a.between + [apply], Next(met, apply), ReplyToApply(met, at, a))
  }

  /** What an attempt is, when the inspection answers by itself and when it lets the message through. */
  lemma AttemptIs(w: World, at: Stream, a: Attempt)
    requires Handling(w, at)
    ensures var inspect, apply := TryInspect(at, a.fault), TryApply(at, a.trouble, a.now, a.basisPoints);
      var r, met := InspectReply(w.db, Current(w, at), a.fault), Execute(Next(w, inspect), a.between);
      AttemptOf(w, at, a) == if r.Proceeds? then
        Attempted([inspect] + a.between + [apply], Next(met, apply), ReplyToApply(met, at, a))
      else Attempted([inspect], Next(w, inspect), r)
  {
  }

  predicate Retried(r: Reply) {
    r.Raises? && !r.failure.Permanent?
  }

  /** The attempts from the n-th on: what they do, and the replies they get. */
  datatype Tries = Tries(moves: seq<Move>, replies: seq<Reply>)

  function TriesFrom(w: World, at: Stream, attempts: nat -> Attempt, n: nat, bound: int): Tries
    decreases bound - n
  {
    if !Handling(w, at) then Tries([], [])
    else
      var t := AttemptOf(w, at, attempts(n));
      if Retried(t.reply) && n < bound then
        var rest := TriesFrom(t.world, at, attempts, n + 1, bound);
        Tries(t.moves + rest.moves, [t.reply] + rest.replies)
      else Tries(t.moves, [t.reply])
  }

  function Joined(moves: seq<Move>, replies: seq<Reply>, rest: Tries): Tries {
    Tries(moves + rest.moves, replies + rest.replies)
  }

  function Larger(a: int, b: int): int {
    if a >= b then a else b
  }

  /** The next attempt either continues the tries or ends them. */
  lemma TriesUnroll(w: World, at: Stream, attempts: nat -> Attempt, n: nat, bound: int, moves: seq<Move>, replies: seq<Reply>)
    requires Handling(w, at)
    ensures var t := AttemptOf(w, at, attempts(n));
      Joined(moves, replies, TriesFrom(w, at, attempts, n, bound)) ==
        if Retried(t.reply) && n < bound then
          Joined(moves + t.moves, replies + [t.reply], TriesFrom(t.world, at, attempts, n + 1, bound))
        else Tries(moves + t.moves, replies + [t.reply])
  {
    var t := AttemptOf(w, at, attempts(n));
    if Retried(t.reply) && n < bound {
      var rest := TriesFrom(t.world, at, attempts, n + 1, bound);
      assert moves + (t.moves + rest.moves) == moves + t.moves + rest.moves;
      assert replies + ([t.reply] + rest.replies) == replies + [t.reply] + rest.replies;
    }
  }

  /** Every reply but the last is retried, and the last is only if the attempts are used up. */
  predicate RetriedTo(replies: seq<Reply>, bound: int) {
    && 1 <= |replies| <= Larger(1, bound)
    && (forall k :: 0 <= k < |replies| - 1 ==> Retried(replies[k]))
    && !replies[|replies| - 1].Proceeds?
    && (Retried(replies[|replies| - 1]) ==> |replies| == Larger(1, bound))
  }

  /** What the retry loop makes of its last reply. */
  function Verdict(last: Reply): Handled {
    if !last.Raises? then Returned(last)
    else if last.failure.Permanent? then Threw(PermanentError)
    else Threw(RetryExhausted(last.failure))
  }

  function Inspections(moves: seq<Move>, at: Stream): nat {
    if moves == [] then 0 else
      var last := moves[|moves| - 1];
      Inspections(moves[..|moves| - 1], at) + if last.TryInspect? && last.at == at then 1 else 0
  }

  lemma InspectionsAdd(a: seq<Move>, b: seq<Move>, at: Stream)
    ensures Inspections(a + b, at) == Inspections(a, at) + Inspections(b, at)
  {
    if b == [] {
      assert a + b == a;
    } else {
      InspectionsAdd(a, b[..|b| - 1], at);
      assert (a + b)[..|a + b| - 1] == a + b[..|b| - 1];
    }
  }

  lemma ForeignInspectsNothing(moves: seq<Move>, at: Stream)
    requires Interferes(moves, at)
    ensures Inspections(moves, at) == 0
  {
    if moves != [] {
      assert Foreign(moves[|moves| - 1], at);
      ForeignInspectsNothing(moves[..|moves| - 1], at);
    }
  }

  lemma ForeignKeepsDelivery(w: World, move: Move, at: Stream)
    requires Handling(w, at) && Foreign(move, at)
    ensures Handling(Next(w, move), at) && Current(Next(w, move), at) == Current(w, at)
  {
  }

  lemma {:induction false} OthersKeepDelivery(w: World, moves: seq<Move>, at: Stream)
    requires Handling(w, at) && Interferes(moves, at)
    ensures Handling(Execute(w, moves), at) && Current(Execute(w, moves), at) == Current(w, at)
  {
    if moves != [] {
      var n := |moves| - 1;
      OthersKeepDelivery(w, moves[..n], at);
      ForeignKeepsDelivery(Execute(w, moves[..n]), moves[n], at);
    }
  }

  lemma StepKeepsDelivery(w: World, at: Stream, move: Move)
    requires Handling(w, at) && (move.TryInspect? || move.TryApply?)
    ensures Handling(Next(w, move), at) && Current(Next(w, move), at) == Current(w, at)
  {
  }

  /** An attempt keeps the message in hand, inspects it once, and never ends with a request to proceed. */
  lemma AttemptShape(w: World, at: Stream, a: Attempt)
    requires Handling(w, at) && Interferes(a.between, at)
    ensures var t := AttemptOf(w, at, a);
      && Handling(t.world, at) && Current(t.world, at) == Current(w, at)
      && Inspections(t.moves, at) == 1 && !t.reply.Proceeds?
      && (!Current(w, at).Unparsable? && a.fault.Some? ==> t.reply == Raises(a.fault.value))
  {
    var inspect, apply := TryInspect(at, a.fault), TryApply(at, a.trouble, a.now, a.basisPoints);
    var seen := Next(w, inspect);
    StepKeepsDelivery(w, at, inspect);
    OthersKeepDelivery(seen, a.between, at);
    StepKeepsDelivery(Execute(seen, a.between), at, apply);
    assert [inspect][..0] == [] && [apply][..0] == [];
    InspectionsAdd([inspect] + a.between, [apply], at);
    InspectionsAdd([inspect], a.between, at);
    ForeignInspectsNothing(a.between, at);
  }

  /**
   * The retry loop makes between one and the bound of attempts, each inspecting the message once; it
   * stops at the first reply that is not a retried error, and only a used-up bound stops it otherwise.
   */
  lemma {:induction false} TriesAreBounded(w: World, at: Stream, attempts: nat -> Attempt, n: nat, bound: int)
    requires Handling(w, at) && n >= 1 && (n == 1 || n <= bound) && forall k :: Interferes(attempts(k).between, at)
    ensures var t := TriesFrom(w, at, attempts, n, bound);
      && 1 <= |t.replies| <= Larger(1, bound) - n + 1 && Inspections(t.moves, at) == |t.replies|
      && (forall k :: 0 <= k < |t.replies| - 1 ==> Retried(t.replies[k]))
      && !t.replies[|t.replies| - 1].Proceeds?
      && (Retried(t.replies[|t.replies| - 1]) ==> |t.replies| == Larger(1, bound) - n + 1)
    decreases bound - n
  {
    hide AttemptOf;
    var t := AttemptOf(w, at, attempts(n));
    assert Interferes(attempts(n).between, at);
    AttemptShape(w, at, attempts(n));
    if Retried(t.reply) && n < bound {
      var rest := TriesFrom(t.world, at, attempts, n + 1, bound);
      TriesAreBounded(t.world, at, attempts, n + 1, bound);
      InspectionsAdd(t.moves, rest.moves, at);
    }
  }

  lemma TriesAreRetried(w: World, at: Stream, attempts: nat -> Attempt, bound: int)
    requires Handling(w, at) && forall k :: Interferes(attempts(k).between, at)
    ensures var t := TriesFrom(w, at, attempts, 1, bound);
      |t.replies| >= 1 && RetriedTo(t.replies, bound) && Inspections(t.moves, at) == |t.replies|
  {
    TriesAreBounded(w, at, attempts, 1, bound);
  }

  ghost predicate AlwaysTransient(attempts: nat -> Attempt) {
    forall n :: attempts(n).fault == Some(Transient)
  }

  /** When every attempt at a parsable message fails transiently, that is the last reply. */
  lemma {:induction false} TransientToTheEnd(w: World, at: Stream, attempts: nat -> Attempt, n: nat, bound: int)
    requires Handling(w, at) && !Current(w, at).Unparsable? && forall k :: Interferes(attempts(k).between, at)
    requires AlwaysTransient(attempts)
    ensures var replies := TriesFrom(w, at, attempts, n, bound).replies;
      replies != [] && replies[|replies| - 1] == Raises(Transient)
    decreases bound - n
  {
    var t := AttemptOf(w, at, attempts(n));
    assert Interferes(attempts(n).between, at) && attempts(n).fault == Some(Transient);
    AttemptShape(w, at, attempts(n));
    if n < bound { TransientToTheEnd(t.world, at, attempts, n + 1, bound); }
  }

  /** What the publish comes to: the first success or permanent error, or the last error of the bound. */
  function SendsTo(sendings: nat -> Sending, n: nat, bound: int): Option<Thrown>
    decreases bound - n
  {
    if sendings(n).Sent? then None
    else if sendings(n).failure.Permanent? then Some(PermanentError)
    else if n >= bound then Some(RetryExhausted(sendings(n).failure))
    else SendsTo(sendings, n + 1, bound)
  }

  function SendMoves(at: Stream, sendings: nat -> Sending, n: nat, bound: int): seq<Move>
    decreases bound - n
  {
    [Publish(at, sendings(n))]
    + if sendings(n).Sent? || sendings(n).failure.Permanent? || n >= bound then []
      else SendMoves(at, sendings, n + 1, bound)
  }

  lemma SendUnrolls(at: Stream, sendings: nat -> Sending, n: nat, bound: int, moves: seq<Move>)
    ensures var ends := sendings(n).Sent? || sendings(n).failure.Permanent? || n >= bound;
      moves + SendMoves(at, sendings, n, bound) ==
        if ends then moves + [Publish(at, sendings(n))]
        else moves + [Publish(at, sendings(n))] + SendMoves(at, sendings, n + 1, bound)
  {
  }

  /** What follows the handler: the publishes if there is a reason for them, then the commit unless they threw. */
  function EndMoves(at: Stream, reason: Option<DlqReason>, sendings: nat -> Sending, committal: Committal, bound: int): seq<Move> {
    (if reason.Some? then SendMoves(at, sendings, 1, bound) else [])
    + if reason.Some? && SendsTo(sendings, 1, bound).Some? then [] else [Commit(at, committal)]
  }

  /** Why a message is published after the handler's last reply, if it is. */
  function ReasonFor(last: Reply): Option<DlqReason> {
    match last
    case Quarantines(reason) => Some(reason)
    case Raises(_) => Some(HandlerFailure)
    case _ => None
  }

  function EndAfter(thrown: Option<Thrown>, committal: Committal): Outcome {
    if thrown.Some? then PublishRejects(thrown.value) else if committal.Stored? then Finished else CommitRejects
  }

  /** How the delivery ends, given the handler's last reply, the publishes and the commit. */
  function OutcomeOf(last: Reply, sendings: nat -> Sending, committal: Committal, bound: int): Outcome {
    if last == Raises(Transient) then HandlerRejects(RetryExhausted(Transient))
    else EndAfter(if ReasonFor(last).None? then None else SendsTo(sendings, 1, bound), committal)
  }

  /** The replies the handler gives to one delivery. */
  function Replied(w: World, at: Stream, attempts: nat -> Attempt): seq<Reply> {
    TriesFrom(w, at, attempts, 1, w.maxAttempts).replies
  }

  function LastReply(w: World, at: Stream, attempts: nat -> Attempt): Reply
    requires Replied(w, at, attempts) != []
  {
    Replied(w, at, attempts)[|Replied(w, at, attempts)| - 1]
  }

  /** Every step of one delivery, its own and those that others take between its transactions. */
  function DeliveryMoves(w: World, at: Stream, attempts: nat -> Attempt, sendings: nat -> Sending, committal: Committal): seq<Move>
    requires Replied(w, at, attempts) != []
  {
    var last := LastReply(w, at, attempts);
    TriesFrom(w, at, attempts, 1, w.maxAttempts).moves
    + if last == Raises(Transient) then [] else EndMoves(at, ReasonFor(last), sendings, committal, w.maxAttempts)
  }

  class TreasuryConsumer {
    var world: World
    ghost const start: World
    ghost var trace: seq<Move>

    constructor (w: World)
      requires WorldInv(w)
      ensures Valid() && world == w && start == w && trace == []
    {
      world, start, trace := w, w, [];
    }

    /** The world is where a run of the protocol, recorded in `trace`, has taken it. */
    ghost predicate Valid()
      reads this
    {
      world == Execute(start, trace) && WorldInv(world)
    }

    ghost predicate InPhase(at: Stream, phase: Phase)
      reads this
    {
      Handling(world, at) && world.partitions[at].phase == phase
    }

    /** One step of the protocol. */
    method Perform(move: Move)
      requires Valid() && Admissible(move)
      modifies this
      ensures Valid() && world == Next(old(world), move) && trace == old(trace) + [move]
    {
      NextKeepsWorld(world, move);
      world := Next(world, move);
      trace := trace + [move];
    }

    /** A step of someone else leaves the delivery in hand as it is. */
    method PerformForeign(at: Stream, move: Move)
      requires Valid() && Handling(world, at) && Admissible(move) && Foreign(move, at)
      modifies this
      ensures Valid() && trace == old(trace) + [move] && world == Next(old(world), move)
      ensures world.maxAttempts == old(world).maxAttempts
      ensures InPhase(at, old(world).partitions[at].phase)
      ensures SameDelivery(old(world).partitions[at], world.partitions[at]) && SameRecords(old(world).dlq, world.dlq, at)
    {
      hide Valid, Next, SameDelivery, SameRecords;
      ForeignSteps(world, move, at);
      Perform(move);
    }

    method Interfere(at: Stream, moves: seq<Move>)
      requires Valid() && Handling(world, at) && Interferes(moves, at)
      modifies this
      ensures Valid() && trace == old(trace) + moves && world == Execute(old(world), moves)
      ensures world.maxAttempts == old(world).maxAttempts
      ensures InPhase(at, old(world).partitions[at].phase)
      ensures SameDelivery(old(world).partitions[at], world.partitions[at]) && SameRecords(old(world).dlq, world.dlq, at)
    {
      for i := 0 to |moves|
        invariant Valid() && trace == old(trace) + moves[..i] && world == Execute(old(world), moves[..i])
        invariant world.maxAttempts == old(world).maxAttempts
        invariant InPhase(at, old(world).partitions[at].phase)
        invariant SameDelivery(old(world).partitions[at], world.partitions[at]) && SameRecords(old(world).dlq, world.dlq, at)
      {
        assert Foreign(moves[i], at) && moves[..i + 1] == moves[..i] + [moves[i]] && moves[..i + 1][..i] == moves[..i];
        PerformForeign(at, moves[i]);
      }
      assert moves[..|moves|] == moves;
    }

    /** Parsing and inspection. */
    method Inspect(at: Stream, fault: Option<Failure>, attempt: int) returns (r: Reply)
      requires Valid() && InPhase(at, Trying(attempt))
      modifies this
      ensures Valid() && InPhase(at, Follow(world.maxAttempts, attempt, r)) && world.maxAttempts == old(world).maxAttempts
      ensures trace == old(trace) + [TryInspect(at, fault)]
      ensures SameDelivery(old(world).partitions[at], world.partitions[at]) && world.dlq == old(world).dlq
      ensures r.Proceeds? ==> !Current(world, at).Unparsable?
      ensures r == InspectReply(old(world).db, Current(old(world), at), fault) && world == Next(old(world), TryInspect(at, fault))
    {
      r := InspectReply(world.db, Current(world, at), fault);
      Perform(TryInspect(at, fault));
    }

    method Apply(at: Stream, a: Attempt, attempt: int) returns (r: Reply)
      requires Valid() && InPhase(at, Applying(attempt)) && !Current(world, at).Unparsable?
      modifies this
      ensures Valid() && !r.Proceeds? && InPhase(at, Follow(world.maxAttempts, attempt, r)) && world.maxAttempts == old(world).maxAttempts
      ensures trace == old(trace) + [TryApply(at, a.trouble, a.now, a.basisPoints)]
      ensures r == ReplyToApply(old(world), at, a)
      ensures world == Next(old(world), TryApply(at, a.trouble, a.now, a.basisPoints))
      ensures SameDelivery(old(world).partitions[at], world.partitions[at]) && world.dlq == old(world).dlq
    {
      r := ApplyReply(Deliver(world.db, Current(world, at), Place(world, at), a.now, a.basisPoints).1, a.trouble);
      Perform(TryApply(at, a.trouble, a.now, a.basisPoints));
    }

    /** One call of the handler: parse, inspect, then apply. */
    method Dispatch(at: Stream, a: Attempt, attempt: int) returns (r: Reply)
      requires Valid() && InPhase(at, Trying(attempt)) && Interferes(a.between, at)
      modifies this
      ensures Valid() && !r.Proceeds? && InPhase(at, Follow(world.maxAttempts, attempt, r))
      ensures world.maxAttempts == old(world).maxAttempts
      ensures trace == old(trace) + AttemptOf(old(world), at, a).moves
      ensures world == AttemptOf(old(world), at, a).world && r == AttemptOf(old(world), at, a).reply
      ensures Kept(old(world), world, at, old(trace), AttemptOf(old(world), at, a).moves)
    {
      hide AttemptOf, InspectReply, ReplyToApply, Next, Execute, WorldInv;
      AttemptIs(world, at, a);
      r := Inspect(at, a.fault, attempt);
      if r.Proceeds? {
        Interfere(at, a.between);
        r := Apply(at, a, attempt);
      }
    }

    lemma NothingYet(at: Stream)
      requires at in world.partitions
      ensures Kept(world, world, at, trace, []) && trace + [] == trace
    {
    }

    lemma NothingWorked(at: Stream)
      ensures OnlyWorked(trace, |trace|, at)
    {
    }

    lemma FollowAtTheEnd(attempt: int, bound: int, r: Reply)
      requires attempt >= 1 && (attempt == 1 || attempt <= bound) && !r.Proceeds?
      ensures if Retried(r) && attempt < bound then Follow(bound, attempt, r) == Trying(attempt + 1)
              else Follow(bound, attempt, r) == Follow(bound, Larger(1, bound), r)
    {
    }

    /**
     * withRetry around the handler. The replies are those of the attempts in turn; what it returns or
     * throws is decided by the last of them, and it steps exactly as those attempts do.
     */
    method HandleWithRetry(at: Stream, attempts: nat -> Attempt) returns (r: Handled, ghost tries: Tries)
      requires Valid() && InPhase(at, Trying(1)) && forall n :: Interferes(attempts(n).between, at)
      modifies this
      ensures Valid() && at in world.partitions && world.maxAttempts == old(world).maxAttempts
      ensures Kept(old(world), world, at, old(trace), tries.moves)
      ensures tries == TriesFrom(old(world), at, attempts, 1, old(world).maxAttempts) && trace == old(trace) + tries.moves
      ensures Inspections(tries.moves, at) == |tries.replies|
      ensures RetriedTo(tries.replies, old(world).maxAttempts) && r == Verdict(tries.replies[|tries.replies| - 1])
      ensures InPhase(at, Follow(world.maxAttempts, Larger(1, world.maxAttempts), tries.replies[|tries.replies| - 1]))
    {
      hide Valid, AttemptOf, TriesFrom, Interferes, Inspections, Kept, Follow, RetriedTo;
      var attempt := 1;
      NothingYet(at);
      tries := TriesFrom(world, at, attempts, 1, world.maxAttempts);
      TriesAreRetried(world, at, attempts, world.maxAttempts);
      ghost var moves, replies := [], [];
      while true
        invariant Valid() && InPhase(at, Trying(attempt)) && world.maxAttempts == old(world).maxAttempts
        invariant trace == old(trace) + moves && Kept(old(world), world, at, old(trace), moves)
        invariant attempt >= 1 && |replies| == attempt - 1 && (attempt == 1 || attempt <= world.maxAttempts)
        invariant tries == Joined(moves, replies, TriesFrom(world, at, attempts, attempt, world.maxAttempts))
        decreases world.maxAttempts - attempt
      {
        assert Interferes(attempts(attempt).between, at);
        TriesUnroll(world, at, attempts, attempt, world.maxAttempts, moves, replies);
        ghost var t := AttemptOf(world, at, attempts(attempt));
        ghost var w := world;
        var reply := Dispatch(at, attempts(attempt), attempt);
        KeptThroughout(old(world), w, world, at, old(trace), moves, t.moves);
        FollowAtTheEnd(attempt, world.maxAttempts, reply);
        moves, replies := moves + t.moves, replies + [reply];
        if !reply.Raises? {
          r := Returned(reply);
          return;
        }
        if reply.failure.Permanent? {
          r := Threw(PermanentError);
          return;
        }
        if attempt >= world.maxAttempts {
          r := Threw(RetryExhausted(reply.failure));
          return;
        }
        attempt := attempt + 1;
      }
    }

    /** One publish to the dead-letter queue. */
    method PublishOnce(at: Stream, reason: DlqReason, attempt: int, sending: Sending)
      requires Valid() && InPhase(at, Publishing(reason, attempt))
      modifies this
      ensures Valid() && trace == old(trace) + [Publish(at, sending)] && world.maxAttempts == old(world).maxAttempts
      ensures at in world.partitions && SameDelivery(old(world).partitions[at], world.partitions[at])
      ensures InPhase(at, if sending.Sent? then Committing
                          else if sending.failure.Permanent? || attempt >= world.maxAttempts then Trying(1)
                          else Publishing(reason, attempt + 1))
      ensures sending.Sent? ==> DlqRecord(at, old(world).partitions[at].position, reason) in world.dlq
    {
      hide Valid, Next;
      PublishSteps(world, at, sending);
      Perform(Publish(at, sending));
    }

    /** withRetry around the publish to the dead-letter queue; None when it returns normally. */
    method Quarantine(at: Stream, reason: DlqReason, sendings: nat -> Sending) returns (thrown: Option<Thrown>)
      requires Valid() && InPhase(at, Publishing(reason, 1))
      modifies this
      ensures Valid() && at in world.partitions && SameDelivery(old(world).partitions[at], world.partitions[at])
      ensures old(trace) <= trace && OnlyWorked(trace, |old(trace)|, at)
      ensures InPhase(at, if thrown.None? then Committing else Trying(1))
      ensures thrown == SendsTo(sendings, 1, old(world).maxAttempts)
      ensures trace == old(trace) + SendMoves(at, sendings, 1, old(world).maxAttempts)
      ensures thrown.None? ==> DlqRecord(at, old(world).partitions[at].position, reason) in world.dlq
    {
      hide Next, Execute, WorldInv, SendMoves, StreamInv;
      var attempt := 1;
      while true
        invariant Valid() && InPhase(at, Publishing(reason, attempt))
        invariant attempt >= 1 && old(trace) <= trace && OnlyWorked(trace, |old(trace)|, at)
        invariant world.maxAttempts == old(world).maxAttempts
        invariant SameDelivery(old(world).partitions[at], world.partitions[at])
        invariant SendsTo(sendings, attempt, world.maxAttempts) == SendsTo(sendings, 1, world.maxAttempts)
        invariant trace + SendMoves(at, sendings, attempt, world.maxAttempts)
          == old(trace) + SendMoves(at, sendings, 1, world.maxAttempts)
        decreases world.maxAttempts - attempt
      {
        var sending := sendings(attempt);
        SendUnrolls(at, sendings, attempt, world.maxAttempts, trace);
        PublishOnce(at, reason, attempt, sending);
        if sending.Sent? {
          return None;
        }
        if sending.failure.Permanent? {
          return Some(PermanentError);
        }
        if attempt >= world.maxAttempts {
          return Some(RetryExhausted(sending.failure));
        }
        attempt := attempt + 1;
      }
    }

    /** commitOffset of the next offset; whether it returns normally. */
    method CommitOffset(at: Stream, committal: Committal) returns (ok: bool)
      requires Valid() && InPhase(at, Committing)
      modifies this
      ensures Valid() && trace == old(trace) + [Commit(at, committal)] && ok == committal.Stored?
      ensures at in world.partitions
      ensures world.partitions[at] == CommittedPartition(old(world).partitions[at], committal)
      ensures world.dlq == old(world).dlq
    {
      Perform(Commit(at, committal));
      ok := committal.Stored?;
    }

    /** The quarantine, if there is a reason for one, and then the commit. */
    method Finish(at: Stream, reason: Option<DlqReason>, sendings: nat -> Sending, committal: Committal) returns (r: Outcome)
      requires Valid() && InPhase(at, if reason.Some? then Publishing(reason.value, 1) else Committing)
      modifies this
      ensures Valid() && !r.HandlerRejects? && old(trace) <= trace && OnlyWorked(trace, |old(trace)|, at) && at in world.partitions
      ensures Ended(old(world).partitions[at], world.partitions[at], r)
      ensures r == EndAfter(if reason.None? then None else SendsTo(sendings, 1, old(world).maxAttempts), committal)
      ensures trace == old(trace) + EndMoves(at, reason, sendings, committal, old(world).maxAttempts)
      ensures reason.Some? && !r.PublishRejects? ==> DlqRecord(at, old(world).partitions[at].position, reason.value) in world.dlq
    {
      hide Next, Execute, WorldInv;
      if reason.Some? {
        var thrown := Quarantine(at, reason.value, sendings);
        if thrown.Some? {
          return PublishRejects(thrown.value);
        }
      }
      var ok := CommitOffset(at, committal);
      r := if ok then Finished else CommitRejects;
    }

    lemma BaseIsBehind(at: Stream)
      requires Valid() && at in world.partitions
      ensures world.partitions[at].base <= world.partitions[at].position
    {
      assert StreamInv(world, at);
    }

    lemma BelowPosition(at: Stream, k: nat)
      requires Valid() && at in world.partitions && world.partitions[at].base <= k < world.partitions[at].position
      ensures k < |world.partitions[at].log| && Accounted(world, at, k, world.partitions[at].log[k])
    {
    }

    /**
     * One delivery of the message at the position. It is done only when its offset is committed, and
     * then the message is accounted for. A handler still failing transiently makes it reject with
     * nothing published and nothing committed for the stream; any rejection leaves the position, so
     * the message is delivered again.
     */
    method ProcessMessage(at: Stream, attempts: nat -> Attempt, sendings: nat -> Sending, committal: Committal) returns (r: Outcome)
      requires Valid() && InPhase(at, Trying(1)) && forall n :: Interferes(attempts(n).between, at)
      modifies this
      ensures Valid() && old(trace) <= trace && OnlyWorked(trace, |old(trace)|, at) && at in world.partitions
      ensures Ended(old(world).partitions[at], world.partitions[at], r)
      ensures r.Finished? ==> Accounted(world, at, old(world).partitions[at].position, Current(old(world), at))
      ensures Replied(old(world), at, attempts) != [] && r == OutcomeOf(LastReply(old(world), at, attempts), sendings, committal, old(world).maxAttempts)
      ensures trace == old(trace) + DeliveryMoves(old(world), at, attempts, sendings, committal)
      ensures r.HandlerRejects? <==> LastReply(old(world), at, attempts) == Raises(Transient)
      ensures !Current(old(world), at).Unparsable? && AlwaysTransient(attempts) ==> r.HandlerRejects?
      ensures r.HandlerRejects? ==> OnlyHandled(trace, |old(trace)|, at) && SameRecords(old(world).dlq, world.dlq, at)
      ensures r.Finished? && ReasonFor(LastReply(old(world), at, attempts)).Some? ==>
        DlqRecord(at, old(world).partitions[at].position, ReasonFor(LastReply(old(world), at, attempts)).value) in world.dlq
    {
      hide Valid, TriesFrom, Accounted, Interferes, Inspections, EndMoves, SendsTo, AlwaysTransient;
      hide Kept, SameDelivery, OnlyHandled, OnlyWorked, Ended, SameRecords;
      BaseIsBehind(at);
      if !Current(world, at).Unparsable? && AlwaysTransient(attempts) {
        TransientToTheEnd(world, at, attempts, 1, world.maxAttempts);
      }
      var handled, tries := HandleWithRetry(at, attempts);
      ghost var last, w := tries.replies[|tries.replies| - 1], world;
      assert tries.replies == Replied(old(world), at, attempts) && last == LastReply(old(world), at, attempts);
      match handled {
        case Threw(error) =>
          if error.RetryExhausted? && error.lastError.Transient? {
            NothingWorked(at);
            DeliveryEnds(old(world), w, world, at, old(trace), tries.moves, trace, HandlerRejects(error));
            return HandlerRejects(error);
          }
          assert ReasonFor(last) == Some(HandlerFailure);
          r := Finish(at, Some(HandlerFailure), sendings, committal);
        case Returned(outcome) =>
          r := Finish(at, if outcome.Quarantines? then Some(outcome.reason) else None, sendings, committal);
      }
      DeliveryEnds(old(world), w, world, at, old(trace), tries.moves, trace, r);
      if r.Finished? { BelowPosition(at, old(world).partitions[at].position); }
    }
  }
}
