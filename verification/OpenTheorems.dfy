/** When a shown time is honoured: the only reasons an opened copy closes before its own deadline. */
module OpenTheorems {
  import opened Prelude
  import opened ChatDb
  import opened BurnSpec
  import opened Runs
  import opened ChatInvariant
  import opened MarkTheorems
  import opened LifecycleTheorems
  import opened BurnTheorems
  import opened SenderTheorems
  import opened ContentTheorems

  /** The message is live and the user's copy of it is open until `b`. */
  predicate OpenUntil(s: Db, id: MsgId, u: UserId, b: Millis) {
    var k := CopyKey(id, u);
    && id in s.messages && !s.messages[id].isDestroyed
    && k in s.receipts && s.receipts[k].burnAt == Some(b) && s.receipts[k].revealedAt.Some?
  }

  predicate StampedWith(s: Db, id: MsgId, reason: DestroyReason) {
    StampOf(s, id).Some? && StampOf(s, id).value.reason == reason
  }

  /** The message was taken away from the user for a reason the documentation allows, or by rule R2 from its sender. */
  predicate TakenAway(s: Db, id: MsgId, u: UserId) {
    && OriginOf(s, id).Some?
    && (|| s.BurnedDown(OriginOf(s, id).value.conv)
        || StampedWith(s, id, Manual)
        || (u == OriginOf(s, id).value.sender && StampedWith(s, id, AllRead)))
  }

  // ----- one step -----

  /** Only a tick and a manual destruction take a live message away from its readers. */
  lemma LiveStaysLive(cfg: Config, s: Db, op: Op, id: MsgId)
    requires Enabled(s, op) && PhaseOf(s, id) == Live && !op.OpMarkDestroyed? && op != OpManualDestroy(id)
    ensures PhaseOf(Step(cfg, s, op), id) == Live
  {
    hide Step, Enabled;
    if Purges(op) {
      PurgesTakeMarkedRows(cfg, s, op, id);
      PurgingMarksNothing(cfg, s, op, id);
    } else {
      OthersTakeNoRows(cfg, s, op, id);
      if op.OpManualDestroy? {
        ManualMarksOne(cfg, s, op, id);
      } else {
        OthersMarkNothing(cfg, s, op, id);
      }
    }
  }

  lemma PurgingMarksNothing(cfg: Config, s: Db, op: Op, id: MsgId)
    requires Purges(op) && PhaseOf(s, id) == Live && id in Step(cfg, s, op).messages
    ensures !Step(cfg, s, op).messages[id].isDestroyed
  {
    hide AckPurges, SweepPurges, AckError, Listed;
  }

  lemma ManualMarksOne(cfg: Config, s: Db, op: Op, id: MsgId)
    requires op.OpManualDestroy? && op.id != id && id in s.messages
    ensures id in Step(cfg, s, op).messages && Step(cfg, s, op).messages[id] == s.messages[id]
  {
  }

  lemma OthersMarkNothing(cfg: Config, s: Db, op: Op, id: MsgId)
    requires Enabled(s, op) && !Purges(op) && !op.OpMarkDestroyed? && !op.OpManualDestroy?
    requires id in s.messages && id in Step(cfg, s, op).messages
    ensures Step(cfg, s, op).messages[id].isDestroyed == s.messages[id].isDestroyed
  {
    if op.OpElapse? || op.OpConsume? || op.OpMarkAsRead? || op.OpMarkMessagesRead? || DirectoryOp(op) {
      hide Step, Enabled;
      OthersKeepMessages(cfg, s, op);
    } else {
      WritersMarkNothing(cfg, s, op, id);
      hide Step, Enabled;
    }
  }

  lemma WritersMarkNothing(cfg: Config, s: Db, op: Op, id: MsgId)
    requires op.OpSend? || op.OpReveal? || op.OpEdit? || op.OpRecall? || op.OpPatchOriginal? || op.OpOwnerDissolve? || op.OpDissolveOnAccountDelete?
    requires Enabled(s, op) && id in s.messages && id in Step(cfg, s, op).messages
    ensures Step(cfg, s, op).messages[id].isDestroyed == s.messages[id].isDestroyed
  {
    if op.OpSend? {
      SendMarksNothing(cfg, s, op, id);
    } else if op.OpOwnerDissolve? || op.OpDissolveOnAccountDelete? {
      DissolveMarksNothing(cfg, s, op, id);
    } else {
      EditsMarkNothing(cfg, s, op, id);
    }
    hide Step, Enabled;
  }

  lemma SendMarksNothing(cfg: Config, s: Db, op: Op, id: MsgId)
    requires op.OpSend? && Enabled(s, op) && id in s.messages && id in Step(cfg, s, op).messages
    ensures Step(cfg, s, op).messages[id] == s.messages[id]
  {
    hide Compose, NewCopies, SendError;
  }

  lemma DissolveMarksNothing(cfg: Config, s: Db, op: Op, id: MsgId)
    requires (op.OpOwnerDissolve? || op.OpDissolveOnAccountDelete?) && id in s.messages && id in Step(cfg, s, op).messages
    ensures Step(cfg, s, op).messages[id].isDestroyed == s.messages[id].isDestroyed
  {
  }

  lemma EditsMarkNothing(cfg: Config, s: Db, op: Op, id: MsgId)
    requires op.OpReveal? || op.OpEdit? || op.OpRecall? || op.OpPatchOriginal?
    requires id in s.messages && id in Step(cfg, s, op).messages
    ensures Step(cfg, s, op).messages[id].isDestroyed == s.messages[id].isDestroyed
  {
    hide RevealWindow, IsMediaBurn;
  }

  /** A tick that takes a message with an open copy: the conversation was burned down, or it was R2, and the copy the sender's. */
  lemma TickTakes(cfg: Config, s: Db, op: Op, id: MsgId, u: UserId, b: Millis)
    requires Reachable(cfg, s) && Enabled(s, op) && op.OpMarkDestroyed? && OpenUntil(s, id, u, b) && s.now < b
    ensures
      var s' := Step(cfg, s, op);
      PhaseOf(s', id) == Live || TakenAway(s', id, u)
  {
    var s' := Step(cfg, s, op);
    assert s' == MarkDestroyed(s, op.rows1, op.rows2);
    assert s'.convs == s.convs && id in s'.messages;
    hide Reachable, Enabled, Step, MarkDestroyed, R2;
    TickIsExact(s, op.rows1, op.rows2, id);
    if s'.messages[id].isDestroyed && !s.BurnedDown(s.messages[id].conv) {
      OnlyTheSenderIsCutShort(cfg, s, op.rows1, op.rows2, id, CopyKey(id, u));
    }
  }

  lemma ManualTakes(cfg: Config, s: Db, id: MsgId, u: UserId)
    requires PhaseOf(s, id) == Live
    ensures TakenAway(Step(cfg, s, OpManualDestroy(id)), id, u)
  {
  }

  lemma TakenStays(cfg: Config, s: Db, ops: seq<Op>, id: MsgId, u: UserId)
    requires Reachable(cfg, s) && Run(cfg, s, ops) && TakenAway(s, id, u)
    ensures TakenAway(Exec(cfg, s, ops), id, u)
  {
    hide Reachable, Run, Exec, Consistent, Evolves;
    var s' := Exec(cfg, s, ops);
    ReachableIsConsistent(cfg, s);
    RunIsSafe(cfg, s, ops);
    Conservation(cfg, s, ops, id);
    var c := OriginOf(s, id).value.conv;
    if s.BurnedDown(c) {
      ConvMoves(cfg, s, s', c);
    }
  }

  lemma OpenStep(cfg: Config, s: Db, op: Op, id: MsgId, u: UserId, b: Millis)
    requires Reachable(cfg, s) && Enabled(s, op) && op != OpConsume(id, u) && OpenUntil(s, id, u, b) && s.now < b
    ensures OpenUntil(Step(cfg, s, op), id, u, b) || TakenAway(Step(cfg, s, op), id, u)
  {
    hide Reachable, Enabled, Step, Consistent, Evolves, TakenAway;
    var s' := Step(cfg, s, op);
    if op.OpMarkDestroyed? {
      TickTakes(cfg, s, op, id, u, b);
    } else if op == OpManualDestroy(id) {
      ManualTakes(cfg, s, id, u);
    } else {
      LiveStaysLive(cfg, s, op, id);
    }
    ReachableIsConsistent(cfg, s);
    StepIsSafe(cfg, s, op);
    CopyMoves(cfg, s, s', CopyKey(id, u));
    OthersKeepCopy(cfg, s, op, CopyKey(id, u));
  }

  // ----- whole runs -----

  lemma ClockOfRun(cfg: Config, s: Db, op: Op, ops: seq<Op>)
    requires Reachable(cfg, s) && Enabled(s, op) && Run(cfg, Step(cfg, s, op), ops)
    ensures s.now <= Step(cfg, s, op).now <= Exec(cfg, Step(cfg, s, op), ops).now
  {
    hide Reachable, Enabled, Step, Run, Exec, Consistent, Evolves;
    ReachableIsConsistent(cfg, s);
    StepIsSafe(cfg, s, op);
    ClockMoves(cfg, s, Step(cfg, s, op));
    RunIsSafe(cfg, Step(cfg, s, op), ops);
    ClockMoves(cfg, Step(cfg, s, op), Exec(cfg, Step(cfg, s, op), ops));
  }

  lemma {:induction false} OpenOrTaken(cfg: Config, s: Db, ops: seq<Op>, id: MsgId, u: UserId, b: Millis)
    requires Reachable(cfg, s) && Run(cfg, s, ops) && OpConsume(id, u) !in ops
    requires OpenUntil(s, id, u, b) && Exec(cfg, s, ops).now < b
    ensures OpenUntil(Exec(cfg, s, ops), id, u, b) || TakenAway(Exec(cfg, s, ops), id, u)
    decreases |ops|
  {
    hide Reachable, Step, Enabled, OpenUntil, TakenAway;
    if ops != [] {
      var s1 := Step(cfg, s, ops[0]);
      ClockOfRun(cfg, s, ops[0], ops[1..]);
      OpenStep(cfg, s, ops[0], id, u, b);
      ReachableStep(cfg, s, ops[0]);
      if OpenUntil(s1, id, u, b) {
        OpenOrTaken(cfg, s1, ops[1..], id, u, b);
      } else {
        TakenStays(cfg, s1, ops[1..], id, u);
      }
    }
  }

  /** A recall, or the end of the membership, closes the message to the user. */
  predicate ShutOut(s: Db, id: MsgId, u: UserId) {
    id in s.messages && (s.messages[id].isRecalled || !s.IsMember(s.messages[id].conv, u))
  }

  lemma OpenIsRevealable(cfg: Config, s: Db, id: MsgId, u: UserId, b: Millis)
    requires Reachable(cfg, s) && OpenUntil(s, id, u, b) && s.now < b
    ensures RevealError(s, id, u).None? <==> !s.BurnedDown(s.messages[id].conv) && !ShutOut(s, id, u)
  {
    hide Reachable, Consistent;
    ReachableIsConsistent(cfg, s);
    CopyFacts(cfg, s, CopyKey(id, u));
  }

  lemma TakenIsClosed(cfg: Config, s: Db, id: MsgId, u: UserId)
    requires Reachable(cfg, s) && TakenAway(s, id, u)
    ensures RevealError(s, id, u).Some?
  {
    hide Reachable, Consistent;
    ReachableIsConsistent(cfg, s);
    if id in s.messages {
      RowFacts(cfg, s, id);
    }
  }

  /**
   * A shown time is honoured, except for these reasons. Before the deadline a reader's copy was
   * opened with, and without a consume of their own, the next reveal is refused if and only if
   * the conversation was burned down, the message was destroyed by hand, rule R2 took it and the
   * reader is its sender, the message was recalled, or the reader is no longer a member.
   */
  lemma ShownTimeIsHonoured(cfg: Config, s: Db, ops: seq<Op>, id: MsgId, u: UserId, b: Millis)
    requires Reachable(cfg, s) && Run(cfg, s, ops) && OpConsume(id, u) !in ops
    requires OpenUntil(s, id, u, b) && Exec(cfg, s, ops).now < b
    ensures
      var s' := Exec(cfg, s, ops);
      RevealError(s', id, u).Some? <==> TakenAway(s', id, u) || ShutOut(s', id, u)
  {
    hide Reachable, Run, Exec, RevealError, StampedWith;
    var s' := Exec(cfg, s, ops);
    ReachableExtends(cfg, s, ops);
    OpenOrTaken(cfg, s, ops, id, u, b);
    if TakenAway(s', id, u) {
      TakenIsClosed(cfg, s', id, u);
    } else {
      OpenIsRevealable(cfg, s', id, u, b);
    }
  }
}
