/** What a stored message goes on saying, and whom it quotes, over whole runs. */
module ContentTheorems {
  import opened Prelude
  import opened ChatDb
  import opened BurnSpec
  import opened ConversationSpec
  import opened Runs
  import opened ChatInvariant
  import opened BurnTheorems
  import opened LifecycleTheorems

  /** The same words: at most the missing link to the original file was filled in. */
  predicate SameWords(c: Content, c': Content) {
    c' == c.(originalUrl := c'.originalUrl) && (Filled(c.originalUrl) ==> c' == c)
  }

  /** What every step owes to a row that is there before and after it. */
  predicate RowKeeps(s: Db, s': Db, x: MsgId)
    requires x in s.messages && x in s'.messages
  {
    var m, m' := s.messages[x], s'.messages[x];
    && m'.replyTo == (if m.replyTo.Some? && m.replyTo.value in s.messages && m.replyTo.value !in s'.messages then None
                      else m.replyTo)
    && m'.isEncrypted == m.isEncrypted && m'.mediaDuration == m.mediaDuration && m'.mentions == m.mentions
    && (m.IsBurn() ==> SameWords(m.content, m'.content) && m'.isEdited == m.isEdited)
  }

  // ----- one step -----

  lemma SameMessagesKeepRows(s: Db, s': Db, x: MsgId)
    requires s'.messages == s.messages && x in s.messages
    ensures RowKeeps(s, s', x)
  {
  }

  /** The same row, except for its timers and marks. */
  predicate SameText(m: Message, m': Message) {
    m' == m.(destroyAt := m'.destroyAt, isDestroyed := m'.isDestroyed, destroyedAt := m'.destroyedAt,
             destroyReason := m'.destroyReason, isRecalled := m'.isRecalled)
  }

  lemma SameTextKeepsRow(s: Db, s': Db, x: MsgId)
    requires s.messages.Keys <= s'.messages.Keys && x in s.messages && SameText(s.messages[x], s'.messages[x])
    ensures RowKeeps(s, s', x)
  {
  }

  lemma EditKeepsRows(s: Db, id: MsgId, u: UserId, text: string, x: MsgId)
    requires x in s.messages
    ensures x in Edit(s, id, u, text).messages && RowKeeps(s, Edit(s, id, u, text), x)
  {
  }

  lemma PatchKeepsRows(s: Db, id: MsgId, u: UserId, url: string, x: MsgId)
    requires x in s.messages
    ensures x in PatchOriginal(s, id, u, url).messages && RowKeeps(s, PatchOriginal(s, id, u, url), x)
  {
  }

  lemma EditingKeepsRows(cfg: Config, s: Db, op: Op, x: MsgId)
    requires (op.OpEdit? || op.OpPatchOriginal?) && x in s.messages
    ensures x in Step(cfg, s, op).messages && RowKeeps(s, Step(cfg, s, op), x)
  {
    hide Edit, PatchOriginal, RowKeeps;
    if op.OpEdit? {
      EditKeepsRows(s, op.id, op.user, op.text, x);
    } else {
      PatchKeepsRows(s, op.id, op.user, op.url, x);
    }
  }

  lemma RevealKeepsText(cfg: Config, s: Db, op: Op, x: MsgId)
    requires (op.OpReveal? || op.OpRecall?) && x in s.messages
    ensures s.messages.Keys <= Step(cfg, s, op).messages.Keys && SameText(s.messages[x], Step(cfg, s, op).messages[x])
  {
    hide RevealWindow, IsMediaBurn, RevealError;
    if op.OpReveal? && FirstReveal(s, op.id, op.user) {
      OpensExisting(s, op.id, op.user);
    }
    hide FirstReveal;
  }

  lemma OpensExisting(s: Db, id: MsgId, u: UserId)
    requires FirstReveal(s, id, u)
    ensures id in s.messages
  {
  }

  lemma SendKeepsText(cfg: Config, s: Db, op: Op, x: MsgId)
    requires op.OpSend? && Enabled(s, op) && x in s.messages
    ensures s.messages.Keys <= Step(cfg, s, op).messages.Keys && SameText(s.messages[x], Step(cfg, s, op).messages[x])
  {
    hide Compose, NewCopies, SendError;
  }

  lemma MarkRowsKeepText(s: Db, rows: set<MsgId>, at: Millis, reason: DestroyReason, x: MsgId)
    requires x in s.messages
    ensures MarkRows(s, rows, at, reason).messages.Keys == s.messages.Keys
    ensures SameText(s.messages[x], MarkRows(s, rows, at, reason).messages[x])
  {
  }

  lemma MarkKeepsText(cfg: Config, s: Db, op: Op, x: MsgId)
    requires (op.OpMarkDestroyed? || op.OpManualDestroy?) && x in s.messages
    ensures s.messages.Keys <= Step(cfg, s, op).messages.Keys && SameText(s.messages[x], Step(cfg, s, op).messages[x])
  {
    if op.OpMarkDestroyed? {
      var s1 := AfterR1(s, op.rows1);
      MarkRowsKeepText(s, Ids(op.rows1), s.now, FallbackExpired, x);
      MarkRowsKeepText(s1, Ids(op.rows2), s.now, AllRead, x);
    } else if op.id in s.messages {
      MarkRowsKeepText(s, {op.id}, s.now, Manual, x);
    }
    hide MarkRows;
  }

  lemma DissolveKeepsText(cfg: Config, s: Db, op: Op, x: MsgId)
    requires (op.OpOwnerDissolve? || op.OpDissolveOnAccountDelete?) && x in s.messages
    ensures s.messages.Keys <= Step(cfg, s, op).messages.Keys && SameText(s.messages[x], Step(cfg, s, op).messages[x])
  {
    hide OwnedGroups;
  }

  lemma PurgeKeepsRows(s: Db, s1: Db, ids: set<MsgId>, x: MsgId)
    requires s1.messages == s.messages && ids <= s.messages.Keys && x in s.messages && x !in ids
    ensures x in PurgeRows(s1, ids).messages && RowKeeps(s, PurgeRows(s1, ids), x)
  {
  }

  lemma PurgingKeepsRows(cfg: Config, s: Db, op: Op, x: MsgId)
    requires (op.OpAck? || op.OpSweep?) && x in s.messages && x in Step(cfg, s, op).messages
    ensures RowKeeps(s, Step(cfg, s, op), x)
  {
    hide MeetsPurgePolicy, SweepRemoves, RowKeeps;
    if op.OpSweep? {
      PurgeKeepsRows(s, s, SweepPurges(cfg, s, op.rows), x);
    } else if AckError(s, op.conv, op.user, op.ids).None? && op.ids != [] {
      PurgeKeepsRows(s, RecordAcks(s, Listed(s, op.conv, op.ids), op.user), AckPurges(cfg, s, op.conv, op.user, op.ids), x);
    } else {
      SameMessagesKeepRows(s, s, x);
    }
  }

  lemma TextIsKept(cfg: Config, s: Db, op: Op, x: MsgId)
    requires op.OpSend? || op.OpReveal? || op.OpRecall? || op.OpMarkDestroyed? || op.OpManualDestroy?
             || op.OpOwnerDissolve? || op.OpDissolveOnAccountDelete?
    requires Enabled(s, op) && x in s.messages
    ensures s.messages.Keys <= Step(cfg, s, op).messages.Keys && SameText(s.messages[x], Step(cfg, s, op).messages[x])
  {
    hide SameText, Step, Enabled;
    if op.OpSend? {
      SendKeepsText(cfg, s, op, x);
    } else if op.OpReveal? || op.OpRecall? {
      RevealKeepsText(cfg, s, op, x);
    } else if op.OpMarkDestroyed? || op.OpManualDestroy? {
      MarkKeepsText(cfg, s, op, x);
    } else {
      DissolveKeepsText(cfg, s, op, x);
    }
  }

  lemma StepKeepsRows(cfg: Config, s: Db, op: Op, x: MsgId)
    requires Enabled(s, op) && x in s.messages && x in Step(cfg, s, op).messages
    ensures RowKeeps(s, Step(cfg, s, op), x)
  {
    hide RowKeeps, SameText, Step, Enabled;
    if op.OpAck? || op.OpSweep? {
      PurgingKeepsRows(cfg, s, op, x);
    } else if op.OpEdit? || op.OpPatchOriginal? {
      EditingKeepsRows(cfg, s, op, x);
    } else if op.OpSend? || op.OpReveal? || op.OpRecall? || op.OpMarkDestroyed? || op.OpManualDestroy?
              || op.OpOwnerDissolve? || op.OpDissolveOnAccountDelete? {
      TextIsKept(cfg, s, op, x);
      SameTextKeepsRow(s, Step(cfg, s, op), x);
    } else {
      OthersKeepMessages(cfg, s, op);
      SameMessagesKeepRows(s, Step(cfg, s, op), x);
    }
  }

  lemma OthersKeepMessages(cfg: Config, s: Db, op: Op)
    requires op.OpElapse? || op.OpConsume? || op.OpMarkAsRead? || op.OpMarkMessagesRead? || DirectoryOp(op)
    requires Enabled(s, op)
    ensures Step(cfg, s, op).messages == s.messages
  {
    hide Enabled, Step;
    if DirectoryOp(op) {
      DirectoryStep(cfg, s, op);
    } else if op.OpConsume? {
      ConsumeKeepsDeadlines(cfg, s, op);
    } else if op.OpMarkAsRead? || op.OpMarkMessagesRead? {
      ReadingTakesNoRows(cfg, s, op);
    } else {
      ElapseKeepsMessages(cfg, s, op);
    }
  }

  lemma ElapseKeepsMessages(cfg: Config, s: Db, op: Op)
    requires op.OpElapse?
    ensures Step(cfg, s, op).messages == s.messages
  {
  }

  /** Only an accepted send brings a row, and the row replies to what the draft replies to. */
  predicate SendsReply(s: Db, op: Op, x: MsgId, id: MsgId) {
    op.OpSend? && op.id == x && SendError(s, op.draft).None? && op.draft.replyTo == Some(id)
  }

  lemma NewRowIsSent(cfg: Config, s: Db, op: Op, x: MsgId, id: MsgId)
    requires Enabled(s, op) && x !in s.messages && x in Step(cfg, s, op).messages
    ensures op.OpSend? && op.id == x && s.messages.Keys <= Step(cfg, s, op).messages.Keys
    ensures Step(cfg, s, op).messages[x].replyTo == Some(id) <==> SendsReply(s, op, x, id)
  {
    if op.OpAck? || op.OpSweep? {
      PurgingAddsNoRows(cfg, s, op);
    } else if op.OpSend? {
      SendRow(cfg, s, op, x, id);
    } else if op.OpMarkDestroyed? || op.OpManualDestroy? || op.OpOwnerDissolve? || op.OpDissolveOnAccountDelete? {
      MarkingAddsNoRows(cfg, s, op);
    } else if op.OpReveal? || op.OpRecall? || op.OpPatchOriginal? || op.OpEdit? {
      WritingAddsNoRows(cfg, s, op);
    } else {
      OthersKeepMessages(cfg, s, op);
    }
    hide Step, Enabled;
  }

  lemma SendRow(cfg: Config, s: Db, op: Op, x: MsgId, id: MsgId)
    requires op.OpSend? && Enabled(s, op)
    ensures
      var s' := Step(cfg, s, op);
      && s.messages.Keys <= s'.messages.Keys <= s.messages.Keys + {op.id}
      && (SendError(s, op.draft).None? ==> op.id in s'.messages && s'.messages[op.id].replyTo == op.draft.replyTo)
      && (SendError(s, op.draft).Some? ==> s' == s)
  {
    hide SendError, NewCopies, NormalizeBurnTtl, MembersOnly, Dedup, StoredContent, Encrypted;
  }

  lemma PurgingAddsNoRows(cfg: Config, s: Db, op: Op)
    requires op.OpAck? || op.OpSweep?
    ensures Step(cfg, s, op).messages.Keys <= s.messages.Keys
  {
    hide AckPurges, SweepPurges, AckError, Listed;
  }

  lemma MarkingAddsNoRows(cfg: Config, s: Db, op: Op)
    requires op.OpMarkDestroyed? || op.OpManualDestroy? || op.OpOwnerDissolve? || op.OpDissolveOnAccountDelete?
    ensures Step(cfg, s, op).messages.Keys == s.messages.Keys
  {
    hide OwnerDissolveError, OwnedGroups, BurnSpec.Marked;
  }

  lemma WritingAddsNoRows(cfg: Config, s: Db, op: Op)
    requires op.OpReveal? || op.OpRecall? || op.OpPatchOriginal? || op.OpEdit?
    ensures Step(cfg, s, op).messages.Keys == s.messages.Keys
  {
    hide RevealWindow, IsMediaBurn;
  }

  /** A row at the end of a run was there all along. */
  lemma ThereAllAlong(cfg: Config, s: Db, op: Op, ops: seq<Op>, x: MsgId)
    requires Reachable(cfg, s) && Enabled(s, op) && Run(cfg, Step(cfg, s, op), ops)
    requires x in s.messages && x in Exec(cfg, Step(cfg, s, op), ops).messages
    ensures x in Step(cfg, s, op).messages
  {
    hide Reachable, Step, Enabled, Run, Exec;
    var s1 := Step(cfg, s, op);
    var s2 := Exec(cfg, s1, ops);
    ReachableStep(cfg, s, op);
    ReachableExtends(cfg, s1, ops);
    StayedOrStone(cfg, s, s1, op, x);
    if x in s1.tombstones {
      Conservation(cfg, s1, ops, x);
    }
  }

  lemma StayedOrStone(cfg: Config, s: Db, s1: Db, op: Op, x: MsgId)
    requires Reachable(cfg, s) && Enabled(s, op) && s1 == Step(cfg, s, op) && x in s.messages
    ensures x in s1.messages || (x in s1.tombstones && PhaseOf(s1, x) == Purged)
  {
    hide Reachable, Step, Enabled, Consistent, Evolves;
    ReachableIsConsistent(cfg, s);
    StepIsSafe(cfg, s, op);
    RowMoves(cfg, s, s1, x);
  }

  // ----- whole runs -----

  /**
   * What a burn message says does not change as long as its row exists: no edit, no mark, no
   * reveal touches it; only a missing link to the original file can be filled in, once.
   */
  lemma {:induction false} BurnContentIsKept(cfg: Config, s: Db, ops: seq<Op>, x: MsgId)
    requires Reachable(cfg, s) && Run(cfg, s, ops)
    requires x in s.messages && s.messages[x].IsBurn() && x in Exec(cfg, s, ops).messages
    ensures
      var m, m' := s.messages[x], Exec(cfg, s, ops).messages[x];
      && SameWords(m.content, m'.content)
      && !(m'.isEdited && !m.isEdited) && m'.isEncrypted == m.isEncrypted && m'.mediaDuration == m.mediaDuration
    decreases |ops|
  {
    hide Reachable, Step, Enabled;
    if ops != [] {
      var s1 := Step(cfg, s, ops[0]);
      ThereAllAlong(cfg, s, ops[0], ops[1..], x);
      StepKeepsRows(cfg, s, ops[0], x);
      StaysBurn(cfg, s, ops[0], x);
      ReachableStep(cfg, s, ops[0]);
      BurnContentIsKept(cfg, s1, ops[1..], x);
    }
  }

  lemma StaysBurn(cfg: Config, s: Db, op: Op, x: MsgId)
    requires Reachable(cfg, s) && Enabled(s, op) && x in s.messages && x in Step(cfg, s, op).messages
    ensures Step(cfg, s, op).messages[x].burnTtl == s.messages[x].burnTtl
  {
    hide Reachable, Step, Enabled, Consistent, Evolves;
    ReachableIsConsistent(cfg, s);
    StepIsSafe(cfg, s, op);
    RowMoves(cfg, s, Step(cfg, s, op), x);
  }

  /** Along the run, message `x` is sent as a reply to `id`. */
  predicate SentAsReply(cfg: Config, s: Db, ops: seq<Op>, x: MsgId, id: MsgId)
    decreases |ops|
  {
    ops != [] && (SendsReply(s, ops[0], x, id) || SentAsReply(cfg, Step(cfg, s, ops[0]), ops[1..], x, id))
  }

  /** Once `id` is purged, a row quotes it exactly if it did already or was sent as a reply to it since. */
  lemma {:induction false} QuotesOfAPurgedMessage(cfg: Config, s: Db, ops: seq<Op>, id: MsgId, x: MsgId)
    requires Reachable(cfg, s) && Run(cfg, s, ops) && id in s.tombstones && x in Exec(cfg, s, ops).messages
    ensures Exec(cfg, s, ops).messages[x].replyTo == Some(id)
            <==> (x in s.messages && s.messages[x].replyTo == Some(id)) || SentAsReply(cfg, s, ops, x, id)
    decreases |ops|
  {
    hide Reachable, Step, Enabled, SendsReply;
    if ops != [] {
      var s1 := Step(cfg, s, ops[0]);
      ReachableStep(cfg, s, ops[0]);
      StoneStays(cfg, s, ops[0], id);
      QuotesOfAPurgedMessage(cfg, s1, ops[1..], id, x);
      QuoteStep(cfg, s, ops[0], ops[1..], id, x);
    }
  }

  lemma StoneStays(cfg: Config, s: Db, op: Op, id: MsgId)
    requires Reachable(cfg, s) && Enabled(s, op) && id in s.tombstones
    ensures id in Step(cfg, s, op).tombstones && id !in s.messages && id !in Step(cfg, s, op).messages
  {
    hide Reachable, Step, Enabled, Consistent, Evolves;
    ReachableIsConsistent(cfg, s);
    StepIsSafe(cfg, s, op);
    TombstonesStay(cfg, s, Step(cfg, s, op), id);
    StonesHaveNoRow(cfg, s, id);
    StonesHaveNoRow(cfg, Step(cfg, s, op), id);
  }

  lemma StonesHaveNoRow(cfg: Config, s: Db, id: MsgId)
    requires Consistent(cfg, s) && id in s.tombstones
    ensures id !in s.messages
  {
    assert id in s.messages ==> MessageOk(cfg, s, id);
  }

  lemma QuoteStep(cfg: Config, s: Db, op: Op, ops: seq<Op>, id: MsgId, x: MsgId)
    requires Reachable(cfg, s) && Enabled(s, op) && Run(cfg, Step(cfg, s, op), ops)
    requires id in s.tombstones && x in Exec(cfg, Step(cfg, s, op), ops).messages
    ensures
      var s1 := Step(cfg, s, op);
      (x in s1.messages && s1.messages[x].replyTo == Some(id))
      <==> (x in s.messages && s.messages[x].replyTo == Some(id)) || SendsReply(s, op, x, id)
  {
    hide Reachable, Step, Enabled, Run, Exec, SendError;
    StoneStays(cfg, s, op, id);
    if x in s.messages {
      ThereAllAlong(cfg, s, op, ops, x);
      StepKeepsRows(cfg, s, op, x);
      NoSecondSend(s, op, x, id);
    } else if x in Step(cfg, s, op).messages {
      NewRowIsSent(cfg, s, op, x, id);
    } else if op.OpSend? && op.id == x {
      SendRow(cfg, s, op, x, id);
    }
  }

  lemma NoSecondSend(s: Db, op: Op, x: MsgId, id: MsgId)
    requires Enabled(s, op) && x in s.messages
    ensures !SendsReply(s, op, x, id)
  {
  }

  /**
   * After the step that purges a message, a row quotes it if and only if the row was sent
   * afterwards, as a reply to it: nothing that existed at the purge ever quotes it again.
   */
  lemma PurgedUntilRepliedTo(cfg: Config, s: Db, op: Op, ops: seq<Op>, id: MsgId, x: MsgId)
    requires Reachable(cfg, s) && Enabled(s, op) && id in s.messages && id !in Step(cfg, s, op).messages
    requires Run(cfg, Step(cfg, s, op), ops) && x in Exec(cfg, Step(cfg, s, op), ops).messages
    ensures Exec(cfg, Step(cfg, s, op), ops).messages[x].replyTo == Some(id)
            <==> SentAsReply(cfg, Step(cfg, s, op), ops, x, id)
  {
    hide Reachable, Step, Enabled, Run, Exec, SentAsReply, SendsReply;
    var s1 := Step(cfg, s, op);
    ReachableStep(cfg, s, op);
    StayedOrStone(cfg, s, s1, op, id);
    QuotesOfAPurgedMessage(cfg, s1, ops, id, x);
    if x in s1.messages {
      if x in s.messages {
        StepKeepsRows(cfg, s, op, x);
      } else {
        NewRowIsSent(cfg, s, op, x, id);
      }
    }
  }
}
