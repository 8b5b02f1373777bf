/** Live row, marked row, tombstone: the two-phase life of a message, conserved over every run. */
module LifecycleTheorems {
  import opened Prelude
  import opened ChatDb
  import opened BurnSpec
  import opened Runs
  import opened ChatInvariant

  datatype Phase = Unsent | Live | Marked | Purged

  function Rank(p: Phase): nat {
    match p
    case Unsent => 0
    case Live => 1
    case Marked => 2
    case Purged => 3
  }

  function PhaseOf(s: Db, id: MsgId): Phase {
    if id in s.messages then (if s.messages[id].isDestroyed then Marked else Live)
    else if id in s.tombstones then Purged
    else Unsent
  }

  datatype Origin = Origin(conv: ConvId, sender: UserId, kind: MessageKind, createdAt: Millis)

  /** Where a message came from, as its row or its tombstone tells it. */
  function OriginOf(s: Db, id: MsgId): Option<Origin> {
    if id in s.messages then
      var m := s.messages[id];
      Some(Origin(m.conv, m.sender, m.kind, m.createdAt))
    else if id in s.tombstones then
      var t := s.tombstones[id];
      Some(Origin(t.conv, t.sender, t.kind, t.createdAt))
    else
      None
  }

  datatype Stamp = Stamp(at: Millis, reason: DestroyReason)

  function StampOf(s: Db, id: MsgId): Option<Stamp> {
    if id in s.messages then
      var m := s.messages[id];
      if m.destroyedAt.Some? && m.destroyReason.Some? then Some(Stamp(m.destroyedAt.value, m.destroyReason.value))
      else None
    else if id in s.tombstones then
      Some(Stamp(s.tombstones[id].destroyedAt, s.tombstones[id].destroyReason))
    else
      None
  }

  /**
   * An id, once sent, stays in exactly one place, only moves forward, keeps where it came
   * from, and gets its destruction stamp once: the tombstone carries the stamp of the mark.
   */
  lemma Conservation(cfg: Config, s: Db, ops: seq<Op>, id: MsgId)
    requires Reachable(cfg, s) && Run(cfg, s, ops) && PhaseOf(s, id) != Unsent
    ensures
      var s' := Exec(cfg, s, ops);
      && !(id in s'.messages && id in s'.tombstones)
      && Rank(PhaseOf(s, id)) <= Rank(PhaseOf(s', id))
      && OriginOf(s', id) == OriginOf(s, id)
      && (StampOf(s', id).Some? <==> PhaseOf(s', id) == Marked || PhaseOf(s', id) == Purged)
      && (StampOf(s, id).Some? ==> StampOf(s', id) == StampOf(s, id))
      && (StampOf(s, id).None? && StampOf(s', id).Some? ==> s.now <= StampOf(s', id).value.at <= s'.now)
  {
    var s' := Exec(cfg, s, ops);
    hide Consistent, Evolves, Reachable, Exec, Run;
    ReachableIsConsistent(cfg, s);
    RunIsSafe(cfg, s, ops);
    if id in s.messages {
      RowFacts(cfg, s, id);
      RowMoves(cfg, s, s', id);
    } else {
      TombstonesStay(cfg, s, s', id);
    }
  }

  /** Every receipt and confirmation hangs off an existing row, every confirmation off a marked one. */
  lemma NothingDangles(cfg: Config, s: Db)
    requires Reachable(cfg, s)
    ensures forall k | k in s.receipts :: k.msg in s.messages
    ensures forall k | k in s.acks :: PhaseOf(s, k.msg) == Marked
    ensures forall id | id in s.messages :: s.messages[id].conv in s.convs
  {
    ReachableIsConsistent(cfg, s);
    assert forall k | k in s.receipts :: CopyOk(s, k);
    assert forall k | k in s.acks :: AckOk(s, k);
    assert forall id | id in s.messages :: MessageOk(cfg, s, id);
  }

  // ----- two phases: no step takes a live row away -----

  predicate Purges(op: Op) {
    op.OpAck? || op.OpSweep?
  }

  lemma PurgesTakeMarkedRows(cfg: Config, s: Db, op: Op, id: MsgId)
    requires Purges(op) && PhaseOf(s, id) == Live
    ensures id in Step(cfg, s, op).messages
  {
    hide MeetsPurgePolicy, SweepRemoves;
    if op.OpAck? && AckError(s, op.conv, op.user, op.ids).None? && op.ids != [] {
      assert id !in Listed(s, op.conv, op.ids);
    }
  }

  lemma OthersTakeNoRows(cfg: Config, s: Db, op: Op, id: MsgId)
    requires !Purges(op) && Enabled(s, op) && id in s.messages
    ensures id in Step(cfg, s, op).messages
  {
    hide Compose, NewCopies, RevealWindow, IsMediaBurn, BulkMarkable, ListedUnread, MarkMessagesReadError;
    if DirectoryOp(op) {
      DirectoryStep(cfg, s, op);
    } else if op.OpMarkAsRead? || op.OpMarkMessagesRead? {
      ReadingTakesNoRows(cfg, s, op);
    } else {
      WritingTakesNoRows(cfg, s, op, id);
    }
  }

  lemma ReadingTakesNoRows(cfg: Config, s: Db, op: Op)
    requires op.OpMarkAsRead? || op.OpMarkMessagesRead?
    ensures Step(cfg, s, op).messages == s.messages
  {
    hide BulkMarkable, ListedUnread, MarkMessagesReadError, ReadBound;
  }

  lemma WritingTakesNoRows(cfg: Config, s: Db, op: Op, id: MsgId)
    requires !Purges(op) && !DirectoryOp(op) && !op.OpMarkAsRead? && !op.OpMarkMessagesRead? && id in s.messages
    ensures id in Step(cfg, s, op).messages
  {
    hide Compose, NewCopies, RevealWindow, IsMediaBurn;
  }

  /** Nothing is purged that was not marked by an earlier step. */
  lemma PurgeNeedsMark(cfg: Config, s: Db, op: Op, id: MsgId)
    requires Enabled(s, op) && PhaseOf(s, id) == Live
    ensures Rank(PhaseOf(Step(cfg, s, op), id)) <= Rank(Marked)
  {
    hide Step, Enabled;
    if Purges(op) {
      PurgesTakeMarkedRows(cfg, s, op, id);
    } else {
      OthersTakeNoRows(cfg, s, op, id);
    }
  }
}
