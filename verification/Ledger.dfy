/** What every committed ledger satisfies, and that persistAdvance keeps it. */
module Ledger {
  import opened Wrappers
  import opened Domain
  import opened Tables

  function Entries(ledger: seq<LedgerRow>): seq<PendingEntry> {
    seq(|ledger|, k requires 0 <= k < |ledger| => ledger[k].entry)
  }

  /** Whether the last marker in the entries is an onset. */
  function MarkOpen(entries: seq<PendingEntry>): bool {
    if entries == [] then false
    else
      var last := entries[|entries| - 1];
      last.cause.OverLimitOnset? || (!last.cause.OverLimitCleared? && MarkOpen(entries[..|entries| - 1]))
  }

  /** Every onset comes while unmarked and every clearing while marked. */
  predicate Alternates(entries: seq<PendingEntry>) {
    entries == [] ||
    var front, last := entries[..|entries| - 1], entries[|entries| - 1];
    && Alternates(front)
    && (last.cause.OverLimitOnset? ==> !MarkOpen(front))
    && (last.cause.OverLimitCleared? ==> MarkOpen(front))
  }

  predicate Gapless(a: Account) {
    && a.program.position.nextSequence == |a.ledger| + 1
    && forall k :: 0 <= k < |a.ledger| ==> a.ledger[k].sequence == k + 1
  }

  predicate AgreesWith(p: Position, entries: seq<PendingEntry>) {
    && p.localReserved == Delta(entries, Local)
    && p.treasuryReserved == Delta(entries, Treasury)
    && p.creditLimit == Delta(entries, Limit)
  }

  predicate Marked(p: Position, entries: seq<PendingEntry>) {
    && (p.overLimitSince.Some? <==> IsOverLimit(p))
    && (p.overLimitSince.Some? <==> MarkOpen(entries))
    && Alternates(entries)
  }

  /** The replay check, the sequence, the mark and the CHECKs of one program. */
  predicate LedgerInv(a: Account) {
    var p := a.program.position;
    && Gapless(a)
    && AgreesWith(p, Entries(a.ledger))
    && Marked(p, Entries(a.ledger))
    && ProgramFits(p) && ProgramChecks(p)
  }

  predicate NoMarkers(entries: seq<PendingEntry>) {
    forall k :: 0 <= k < |entries| ==> !IsMarker(entries[k])
  }

  // ---------- Markers ----------

  lemma PlainEntriesKeepMark(entries: seq<PendingEntry>, more: seq<PendingEntry>)
    requires Alternates(entries) && NoMarkers(more)
    ensures Alternates(entries + more) && MarkOpen(entries + more) == MarkOpen(entries)
  {
    if more == [] {
      assert entries + more == entries;
    } else {
      PlainEntriesKeepMark(entries, more[..|more| - 1]);
      assert (entries + more)[..|entries + more| - 1] == entries + more[..|more| - 1];
    }
  }

  lemma CrossingKeepsMark(entries: seq<PendingEntry>, was: bool, over: bool, correlationId: string)
    requires Alternates(entries) && MarkOpen(entries) == was
    ensures Alternates(entries + Crossing(was, over, correlationId))
    ensures MarkOpen(entries + Crossing(was, over, correlationId)) == over
    ensures forall c :: Delta(entries + Crossing(was, over, correlationId), c) == Delta(entries, c)
    ensures forall i :: NamedDelta(entries + Crossing(was, over, correlationId), i) == NamedDelta(entries, i)
  {
    var x := Crossing(was, over, correlationId);
    if x == [] {
      assert entries + x == entries;
    } else {
      assert (entries + x)[..|entries|] == entries;
    }
  }

  function Markers(entries: seq<PendingEntry>): seq<Cause> {
    if entries == [] then [] else
      var last := entries[|entries| - 1];
      Markers(entries[..|entries| - 1]) + if IsMarker(last) then [last.cause] else []
  }

  /** The markers of a ledger, read in order, are ONSET, CLEARED, ONSET, ... */
  lemma {:induction false} MarkersAlternate(entries: seq<PendingEntry>)
    requires Alternates(entries)
    ensures var m := Markers(entries);
      && (forall k :: 0 <= k < |m| ==> m[k] == if k % 2 == 0 then OverLimitOnset else OverLimitCleared)
      && (MarkOpen(entries) <==> |m| % 2 == 1)
  {
    if entries != [] { MarkersAlternate(entries[..|entries| - 1]); }
  }

  // ---------- persistAdvance ----------

  lemma PersistAppends(a: Account, entries: seq<PendingEntry>, now: Time, reconciling: bool)
    requires Persist(a, entries, now, reconciling).Success?
    ensures var b := Persist(a, entries, now, reconciling).value;
      && Entries(b.ledger) == Entries(a.ledger) + Batch(a.program.position, entries)
      && |b.ledger| >= |a.ledger| && b.ledger[..|a.ledger|] == a.ledger
      && (forall k :: |a.ledger| <= k < |b.ledger| ==>
            b.ledger[k].sequence == a.program.position.nextSequence + k - |a.ledger| && b.ledger[k].occurredAt == now)
  {
  }

  /** A batch and its marker keep the cached position equal to what the entries replay to. */
  lemma BatchKeepsReplay(p: Position, entries: seq<PendingEntry>, more: seq<PendingEntry>, now: Time)
    requires AgreesWith(p, entries) && Marked(p, entries) && NoMarkers(more)
    ensures AgreesWith(Advance(p, more, now).program, entries + Batch(p, more))
    ensures Marked(Advance(p, more, now).program, entries + Batch(p, more))
    ensures forall i :: NamedDelta(entries + Batch(p, more), i) == NamedDelta(entries, i) + NamedDelta(more, i)
  {
    var was, over := p.overLimitSince.Some?, IsOverLimit(Moved(p, more));
    var correlationId := if more == [] then "system" else more[|more| - 1].correlationId;
    PlainEntriesKeepMark(entries, more);
    CrossingKeepsMark(entries + more, was, over, correlationId);
    assert entries + Batch(p, more) == entries + more + Crossing(was, over, correlationId);
    DeltaConcat(entries, more, Local);
    DeltaConcat(entries, more, Treasury);
    DeltaConcat(entries, more, Limit);
    forall i ensures NamedDelta(entries + Batch(p, more), i) == NamedDelta(entries, i) + NamedDelta(more, i) {
      NamedDeltaConcat(entries, more, i);
    }
  }

  /** Adding entries keeps the replay, the gapless sequence, the mark and the CHECKs. */
  lemma PersistKeepsLedger(a: Account, entries: seq<PendingEntry>, now: Time, reconciling: bool)
    requires LedgerInv(a) && NoMarkers(entries) && Persist(a, entries, now, reconciling).Success?
    ensures LedgerInv(Persist(a, entries, now, reconciling).value)
    ensures var b := Persist(a, entries, now, reconciling).value;
      forall i :: NamedDelta(Entries(b.ledger), i) == NamedDelta(Entries(a.ledger), i) + NamedDelta(entries, i)
  {
    PersistAppends(a, entries, now, reconciling);
    BatchKeepsReplay(a.program.position, Entries(a.ledger), entries, now);
  }

  /** From a good ledger, a batch is rejected only for amounts out of range, the CHECKs or the trigger. */
  lemma PersistAccepts(a: Account, entries: seq<PendingEntry>, now: Time, reconciling: bool)
    requires LedgerInv(a)
    requires forall k :: 0 <= k < |entries| ==> FitsInt64(entries[k].delta)
    requires var q := Advance(a.program.position, entries, now).program;
      ProgramFits(q) && ProgramChecks(q) && TriggerAllows(a.program.position, q, reconciling)
    ensures Persist(a, entries, now, reconciling).Success?
  {
  }
}
