/** What every request and tick does to a message row and to a reader's copy, said of the tables alone. */
module RowTheorems {
  import opened Prelude
  import opened ChatDb
  import opened BurnSpec
  import opened Runs
  import opened ChatInvariant
  import opened BurnTheorems
  import opened ContentTheorems
  import opened LifecycleTheorems
  import opened RevealTheorems
  import opened ConsumeTheorems
  import opened RosterTheorems
  import opened ReadTheorems
  import opened OpenTheorems

  // ----- what a row says -----

  const TWO_DAYS: nat := 2 * 24 * 60 * 60 * 1000

  /** The author's own row, not marked, within two days of sending. */
  predicate IsOwnRecent(s: Db, id: MsgId, u: UserId) {
    && id in s.messages && !s.messages[id].isDestroyed && s.messages[id].sender == u
    && s.now <= s.messages[id].createdAt + TWO_DAYS
  }

  /** The author edits an ordinary message that was not recalled. */
  predicate Edits(s: Db, op: Op, id: MsgId) {
    op.OpEdit? && op.id == id && IsOwnRecent(s, id, op.user) && !s.messages[id].isRecalled && s.messages[id].burnTtl.None?
  }

  predicate Recalls(s: Db, op: Op, id: MsgId) {
    op.OpRecall? && op.id == id && IsOwnRecent(s, id, op.user)
  }

  /** The author fills in the missing link to the original file. */
  predicate FillsIn(s: Db, op: Op, id: MsgId) {
    && op.OpPatchOriginal? && op.id == id && id in s.messages && s.messages[id].sender == op.user
    && !s.messages[id].isRecalled && !s.messages[id].isDestroyed
    && (s.messages[id].content.originalUrl == None || s.messages[id].content.originalUrl == Some(""))
  }

  /** The columns that say something, or that it was taken back. */
  predicate WordsMove(s: Db, op: Op, s': Db, id: MsgId)
    requires id in s.messages && id in s'.messages
  {
    var m, m' := s.messages[id], s'.messages[id];
    && m'.content == (if Edits(s, op, id) then m.content.(text := Some(op.text))
                      else if FillsIn(s, op, id) then m.content.(originalUrl := Some(op.url))
                      else m.content)
    && m'.isEdited == (m.isEdited || Edits(s, op, id))
    && m'.isRecalled == (m.isRecalled || Recalls(s, op, id))
  }

  predicate SaysTheSame(m: Message, m': Message) {
    m'.content == m.content && m'.isEdited == m.isEdited && m'.isRecalled == m.isRecalled
  }

  lemma EditMovesWords(cfg: Config, s: Db, op: Op, id: MsgId)
    requires op.OpEdit? && id in s.messages
    ensures id in Step(cfg, s, op).messages && WordsMove(s, op, Step(cfg, s, op), id)
  {
    var s' := Step(cfg, s, op);
    assert s' == Edit(s, op.id, op.user, op.text);
    hide Step;
    if Edits(s, op, id) {
      assert s'.messages[id].content == s.messages[id].content.(text := Some(op.text));
    } else {
      assert s'.messages[id] == s.messages[id];
    }
  }

  lemma RecallMovesWords(cfg: Config, s: Db, op: Op, id: MsgId)
    requires op.OpRecall? && id in s.messages
    ensures id in Step(cfg, s, op).messages && WordsMove(s, op, Step(cfg, s, op), id)
  {
  }

  lemma FillInMovesWords(cfg: Config, s: Db, op: Op, id: MsgId)
    requires op.OpPatchOriginal? && id in s.messages
    ensures id in Step(cfg, s, op).messages && WordsMove(s, op, Step(cfg, s, op), id)
  {
  }

  lemma EditingMovesWords(cfg: Config, s: Db, op: Op, id: MsgId)
    requires (op.OpEdit? || op.OpRecall? || op.OpPatchOriginal?) && id in s.messages
    ensures id in Step(cfg, s, op).messages && WordsMove(s, op, Step(cfg, s, op), id)
  {
    hide Step, WordsMove;
    if op.OpEdit? {
      EditMovesWords(cfg, s, op, id);
    } else if op.OpRecall? {
      RecallMovesWords(cfg, s, op, id);
    } else {
      FillInMovesWords(cfg, s, op, id);
    }
  }

  lemma RevealSaysTheSame(cfg: Config, s: Db, op: Op, id: MsgId)
    requires op.OpReveal? && id in s.messages
    ensures id in Step(cfg, s, op).messages && SaysTheSame(s.messages[id], Step(cfg, s, op).messages[id])
  {
    hide RevealWindow, IsMediaBurn;
  }

  lemma SendSaysTheSame(cfg: Config, s: Db, op: Op, id: MsgId)
    requires op.OpSend? && Enabled(s, op) && id in s.messages
    ensures id in Step(cfg, s, op).messages && SaysTheSame(s.messages[id], Step(cfg, s, op).messages[id])
  {
    hide Compose, NewCopies, SendError;
  }

  lemma MarkRowsSayTheSame(s: Db, rows: set<MsgId>, at: Millis, reason: DestroyReason, id: MsgId)
    requires id in s.messages
    ensures id in MarkRows(s, rows, at, reason).messages && SaysTheSame(s.messages[id], MarkRows(s, rows, at, reason).messages[id])
  {
  }

  lemma MarkingSaysTheSame(cfg: Config, s: Db, op: Op, id: MsgId)
    requires (op.OpMarkDestroyed? || op.OpManualDestroy?) && id in s.messages
    ensures id in Step(cfg, s, op).messages && SaysTheSame(s.messages[id], Step(cfg, s, op).messages[id])
  {
    if op.OpMarkDestroyed? {
      MarkRowsSayTheSame(s, Ids(op.rows1), s.now, FallbackExpired, id);
      MarkRowsSayTheSame(AfterR1(s, op.rows1), Ids(op.rows2), s.now, AllRead, id);
    } else if op.id in s.messages {
      MarkRowsSayTheSame(s, {op.id}, s.now, Manual, id);
    }
    hide MarkRows;
  }

  lemma DissolvingSaysTheSame(cfg: Config, s: Db, op: Op, id: MsgId)
    requires (op.OpOwnerDissolve? || op.OpDissolveOnAccountDelete?) && id in s.messages
    ensures id in Step(cfg, s, op).messages && SaysTheSame(s.messages[id], Step(cfg, s, op).messages[id])
  {
  }

  lemma PurgeSaysTheSame(s: Db, ids: set<MsgId>, id: MsgId)
    requires ids <= s.messages.Keys && id in s.messages && id in PurgeRows(s, ids).messages
    ensures SaysTheSame(s.messages[id], PurgeRows(s, ids).messages[id])
  {
  }

  lemma PurgingSaysTheSame(cfg: Config, s: Db, op: Op, id: MsgId)
    requires (op.OpAck? || op.OpSweep?) && id in s.messages && id in Step(cfg, s, op).messages
    ensures SaysTheSame(s.messages[id], Step(cfg, s, op).messages[id])
  {
    hide MeetsPurgePolicy, SweepRemoves, AckError, PurgeRows, SaysTheSame;
    if op.OpSweep? {
      PurgeSaysTheSame(s, SweepPurges(cfg, s, op.rows), id);
    } else if AckError(s, op.conv, op.user, op.ids).None? && op.ids != [] {
      AckedConversation(s, op);
      PurgeSaysTheSame(RecordAcks(s, Listed(s, op.conv, op.ids), op.user), AckPurges(cfg, s, op.conv, op.user, op.ids), id);
    } else {
      SameRowSaysTheSame(s.messages[id]);
    }
  }

  lemma AckedConversation(s: Db, op: Op)
    requires op.OpAck? && AckError(s, op.conv, op.user, op.ids).None? && op.ids != []
    ensures op.conv in s.convs
  {
  }

  predicate Writes(op: Op) {
    op.OpEdit? || op.OpRecall? || op.OpPatchOriginal?
  }

  lemma OthersSayTheSame(cfg: Config, s: Db, op: Op, id: MsgId)
    requires !Writes(op) && Enabled(s, op) && id in s.messages && id in Step(cfg, s, op).messages
    ensures SaysTheSame(s.messages[id], Step(cfg, s, op).messages[id])
  {
    hide SaysTheSame, Step, Enabled;
    if op.OpReveal? {
      RevealSaysTheSame(cfg, s, op, id);
    } else if op.OpSend? {
      SendSaysTheSame(cfg, s, op, id);
    } else if op.OpMarkDestroyed? || op.OpManualDestroy? {
      MarkingSaysTheSame(cfg, s, op, id);
    } else if op.OpOwnerDissolve? || op.OpDissolveOnAccountDelete? {
      DissolvingSaysTheSame(cfg, s, op, id);
    } else if op.OpAck? || op.OpSweep? {
      PurgingSaysTheSame(cfg, s, op, id);
    } else {
      OthersKeepMessages(cfg, s, op);
      SameRowSaysTheSame(s.messages[id]);
    }
  }

  lemma SameRowSaysTheSame(m: Message)
    ensures SaysTheSame(m, m)
  {
  }

  /**
   * What a message says changes, in any request or tick, only by its author: an edit of an
   * ordinary message and a recall, within two days and before it is marked, and one fill-in of
   * the link to the original file.
   */
  lemma WordsMoveExactly(cfg: Config, s: Db, op: Op, id: MsgId)
    requires Enabled(s, op) && id in s.messages && id in Step(cfg, s, op).messages
    ensures WordsMove(s, op, Step(cfg, s, op), id)
  {
    hide Step, Enabled;
    if Writes(op) {
      EditingMovesWords(cfg, s, op, id);
    } else {
      OthersSayTheSame(cfg, s, op, id);
    }
  }

  // ----- its deadline -----

  /** The first admitted reveal of the user's copy. */
  predicate Opens(s: Db, op: Op, k: CopyKey) {
    && op.OpReveal? && CopyKey(op.id, op.user) == k && Accessible(s, k.msg, k.user)
    && s.messages[k.msg].burnTtl.Some? && !s.messages[k.msg].isRecalled
    && !Over(s.messages[k.msg].destroyAt, s.now) && !OwnTimeOver(s, k.msg, k.user) && !HasOpened(s, k.msg, k.user)
  }

  predicate DeadlineMoves(cfg: Config, s: Db, op: Op, s': Db, id: MsgId)
    requires id in s.messages && id in s'.messages
  {
    var m, m' := s.messages[id], s'.messages[id];
    if op.OpReveal? && Opens(s, op, CopyKey(id, op.user)) then
      m.destroyAt.Some? ==> m'.destroyAt == Some(Max(m.destroyAt.value, s.now + WindowMs(cfg, m, op.duration)))
    else
      m'.destroyAt == if BurnsDown(s, op, m.conv) && !m.isDestroyed then Some(s.now) else m.destroyAt
  }

  lemma RevealMovesDeadline(cfg: Config, s: Db, op: Op, id: MsgId)
    requires op.OpReveal? && id in s.messages
    ensures id in Step(cfg, s, op).messages && DeadlineMoves(cfg, s, op, Step(cfg, s, op), id)
  {
    RevealIsAdmittedExactly(cfg, s, op.id, op.user, op.duration);
    hide RevealWindow, IsMediaBurn;
  }

  lemma DissolvingMovesDeadline(cfg: Config, s: Db, op: Op, id: MsgId)
    requires (op.OpOwnerDissolve? || op.OpDissolveOnAccountDelete?) && id in s.messages
    ensures id in Step(cfg, s, op).messages && DeadlineMoves(cfg, s, op, Step(cfg, s, op), id)
  {
  }

  /**
   * The deadline of a message moves, in any request or tick, only by the first reveal of a copy,
   * which pushes it back to the end of that copy's window, and by the end of the conversation,
   * which makes it now for every message that is not marked.
   */
  lemma DeadlineMovesExactly(cfg: Config, s: Db, op: Op, id: MsgId)
    requires Consistent(cfg, s) && Enabled(s, op) && id in s.messages && id in Step(cfg, s, op).messages
    ensures DeadlineMoves(cfg, s, op, Step(cfg, s, op), id)
  {
    if op.OpReveal? {
      RevealMovesDeadline(cfg, s, op, id);
    } else if op.OpOwnerDissolve? || op.OpDissolveOnAccountDelete? {
      DissolvingMovesDeadline(cfg, s, op, id);
    } else if op.OpConsume? {
      ConsumeKeepsDeadlines(cfg, s, op);
    } else {
      ClocksKept(cfg, s, op);
    }
    hide Consistent, Step, Enabled, Opens;
  }

  // ----- a reader's copy -----

  /** The reader consumes what they opened. */
  predicate Consumes(s: Db, op: Op, k: CopyKey) {
    op == OpConsume(k.msg, k.user) && HasPlayed(s, k.msg, k.user) && !OwnTimeOver(s, k.msg, k.user)
  }

  /** An unread copy of a message of the conversation that is not marked. */
  predicate IsUnreadIn(s: Db, c: ConvId, k: CopyKey) {
    && k in s.receipts && !s.receipts[k].isRead
    && k.msg in s.messages && s.messages[k.msg].conv == c && !s.messages[k.msg].isDestroyed
  }

  /** The reader marks the conversation read, up to a message of it if they name one: no sealed message, no unopened burn message. */
  predicate ReadsAll(s: Db, op: Op, k: CopyKey) {
    && op.OpMarkAsRead? && op.user == k.user && MemberKey(op.conv, op.user) in s.members && IsUnreadIn(s, op.conv, k)
    && !s.messages[k.msg].isEncrypted
    && (s.messages[k.msg].burnTtl.Some? ==> HasOpened(s, k.msg, k.user))
    && (op.upTo.Some? && op.upTo.value in s.messages && s.messages[op.upTo.value].conv == op.conv ==>
          s.messages[k.msg].createdAt <= s.messages[op.upTo.value].createdAt)
  }

  /** The reader lists messages they have read, at least one and at most 200. */
  predicate ReadsListed(s: Db, op: Op, k: CopyKey) {
    && op.OpMarkMessagesRead? && op.user == k.user && MemberKey(op.conv, op.user) in s.members && op.conv in s.convs
    && 0 < |Ids(op.ids)| <= 200 && k.msg in op.ids && IsUnreadIn(s, op.conv, k)
  }

  /** The columns of a copy afterwards. */
  predicate CopyMovesTo(cfg: Config, s: Db, op: Op, s': Db, k: CopyKey)
    requires k in s.receipts && k in s'.receipts
  {
    var r := s.receipts[k];
    s'.receipts[k] ==
      if Opens(s, op, k) then
        Receipt(true, Some(s.now), Some(s.now), Some(s.now + WindowMs(cfg, s.messages[k.msg], op.duration)))
      else if Consumes(s, op, k) then r.(burnAt := Some(s.now))
      else if ReadsAll(s, op, k) || ReadsListed(s, op, k) then r.(isRead := true, readAt := Some(s.now))
      else r
  }

  lemma RevealMovesCopy(cfg: Config, s: Db, op: Op, k: CopyKey)
    requires op.OpReveal? && k in s.receipts
    ensures k in Step(cfg, s, op).receipts && CopyMovesTo(cfg, s, op, Step(cfg, s, op), k)
  {
    RevealIsAdmittedExactly(cfg, s, op.id, op.user, op.duration);
    hide RevealWindow, IsMediaBurn;
  }

  lemma ConsumeMovesCopy(cfg: Config, s: Db, op: Op, k: CopyKey)
    requires op.OpConsume? && k in s.receipts
    ensures k in Step(cfg, s, op).receipts && CopyMovesTo(cfg, s, op, Step(cfg, s, op), k)
  {
    ConsumeIsAcceptedExactly(s, op.id, op.user);
    if Consume(s, op.id, op.user).1 == Ok(Consumed(false)) {
      ConsumeEndsOwnTime(s, op.id, op.user);
    }
    hide Consume, HasPlayed;
  }

  lemma ReadingAllMovesCopy(cfg: Config, s: Db, op: Op, k: CopyKey)
    requires op.OpMarkAsRead? && k in s.receipts
    ensures k in Step(cfg, s, op).receipts && CopyMovesTo(cfg, s, op, Step(cfg, s, op), k)
  {
    var ks := set x | x in s.receipts && BulkMarkable(s, op.conv, op.user, ReadBound(s, op.conv, op.upTo), x);
    assert s.IsMember(op.conv, op.user) ==> (k in ks <==> ReadsAll(s, op, k));
    if op.newest != [] {
      AdvanceKeepsReceipts(SetRead(s, ks), op.conv, op.user, op.newest[0]);
    }
    hide BulkMarkable, AdvanceLastRead, ReadBound, IsUnreadIn;
  }

  lemma ListIsInBounds(s: Db, op: Op)
    requires op.OpMarkMessagesRead?
    ensures MarkMessagesReadError(s, op.conv, op.user, op.ids).None?
            <==> MemberKey(op.conv, op.user) in s.members && op.conv in s.convs && 0 < |Ids(op.ids)| <= 200
  {
    DistinctSize(Dedup(op.ids));
  }

  lemma ReadingListedMovesCopy(cfg: Config, s: Db, op: Op, k: CopyKey)
    requires op.OpMarkMessagesRead? && k in s.receipts
    ensures k in Step(cfg, s, op).receipts && CopyMovesTo(cfg, s, op, Step(cfg, s, op), k)
  {
    ListIsInBounds(s, op);
    var ks := ListedUnread(s, op.conv, op.user, op.ids);
    if op.newest != [] {
      AdvanceKeepsReceipts(SetRead(s, ks), op.conv, op.user, op.newest[0]);
    }
    hide AdvanceLastRead, MarkMessagesReadError, Ids;
  }

  /** The copies a request turned from unread to read. */
  function NewlyRead(s: Db, s': Db): set<CopyKey> {
    set k | k in s.receipts && !s.receipts[k].isRead && k in s'.receipts && s'.receipts[k].isRead
  }

  /** A list within bounds is answered by how many copies it turned from unread to read. */
  lemma NewlyReadIsCounted(cfg: Config, s: Db, op: Op)
    requires op.OpMarkMessagesRead?
    ensures
      var (s', r) := MarkMessagesRead(s, op.conv, op.user, op.ids, op.newest);
      && (r.Ok? <==> MemberKey(op.conv, op.user) in s.members && op.conv in s.convs && 0 < |Ids(op.ids)| <= 200)
      && (r.Ok? ==> r.value == |NewlyRead(s, s')|)
      && (r == Err(Forbidden) <==> MemberKey(op.conv, op.user) !in s.members)
      && (r.Err? ==> s' == s)
  {
    ListIsInBounds(s, op);
    var ks := ListedUnread(s, op.conv, op.user, op.ids);
    if op.newest != [] {
      AdvanceKeepsReceipts(SetRead(s, ks), op.conv, op.user, op.newest[0]);
    }
    assert NewlyRead(s, SetRead(s, ks)) == ks;
    hide AdvanceLastRead, Ids, ListedUnread, Dedup;
  }

  predicate ReadsOrOpens(op: Op) {
    op.OpReveal? || op.OpConsume? || op.OpMarkAsRead? || op.OpMarkMessagesRead?
  }

  lemma MarkingKeepsCopies(cfg: Config, s: Db, op: Op)
    requires op.OpElapse? || op.OpEdit? || op.OpRecall? || op.OpPatchOriginal? || op.OpMarkDestroyed? || op.OpManualDestroy?
             || op.OpOwnerDissolve? || op.OpDissolveOnAccountDelete?
    ensures Step(cfg, s, op).receipts == s.receipts
  {
    hide BurnSpec.Marked;
  }

  lemma PurgingKeepsCopies(cfg: Config, s: Db, op: Op, k: CopyKey)
    requires (op.OpAck? || op.OpSweep?) && k in s.receipts && k in Step(cfg, s, op).receipts
    ensures Step(cfg, s, op).receipts[k] == s.receipts[k]
  {
    hide AckPurges, SweepPurges, AckError, Listed;
  }

  lemma SendKeepsCopies(cfg: Config, s: Db, op: Op, k: CopyKey)
    requires op.OpSend? && Enabled(s, op) && k in s.receipts && k.msg in s.messages
    ensures k in Step(cfg, s, op).receipts && Step(cfg, s, op).receipts[k] == s.receipts[k]
  {
    hide Compose, SendError;
  }

  lemma OthersKeepCopies(cfg: Config, s: Db, op: Op, k: CopyKey)
    requires !ReadsOrOpens(op) && Consistent(cfg, s) && Enabled(s, op) && k in s.receipts && k in Step(cfg, s, op).receipts
    ensures Step(cfg, s, op).receipts[k] == s.receipts[k]
  {
    hide Consistent, Step, Enabled;
    CopyFacts(cfg, s, k);
    if op.OpSend? {
      SendKeepsCopies(cfg, s, op, k);
    } else if op.OpAck? || op.OpSweep? {
      PurgingKeepsCopies(cfg, s, op, k);
    } else if DirectoryOp(op) {
      DirectoryStep(cfg, s, op);
    } else {
      MarkingKeepsCopies(cfg, s, op);
    }
  }

  /**
   * A reader's copy changes, in any request or tick, only by the reader: opening it starts their
   * time and reads it, consuming it ends their time, and marking it reads it.
   */
  lemma CopyMovesExactly(cfg: Config, s: Db, op: Op, k: CopyKey)
    requires Consistent(cfg, s) && Enabled(s, op) && k in s.receipts && k in Step(cfg, s, op).receipts
    ensures CopyMovesTo(cfg, s, op, Step(cfg, s, op), k)
  {
    hide Consistent, Step, Enabled;
    if op.OpReveal? {
      RevealMovesCopy(cfg, s, op, k);
    } else if op.OpConsume? {
      ConsumeMovesCopy(cfg, s, op, k);
    } else if op.OpMarkAsRead? {
      ReadingAllMovesCopy(cfg, s, op, k);
    } else if op.OpMarkMessagesRead? {
      ReadingListedMovesCopy(cfg, s, op, k);
    } else {
      OthersKeepCopies(cfg, s, op, k);
    }
  }

  /** A copy comes with an accepted send, one for every member, and with a first reveal by somebody who had none. */
  predicate Receives(s: Db, op: Op, k: CopyKey) {
    op.OpSend? && op.id == k.msg && SendError(s, op.draft).None? && MemberKey(op.draft.conv, k.user) in s.members
  }

  lemma SendBringsCopies(cfg: Config, s: Db, op: Op, k: CopyKey)
    requires op.OpSend? && k !in s.receipts
    ensures k in Step(cfg, s, op).receipts <==> Receives(s, op, k)
  {
    hide Compose, SendError;
    assert MemberKey(op.draft.conv, k.user) in s.Roster(op.draft.conv) <==> s.IsMember(op.draft.conv, k.user);
    assert k in NewCopies(s, op.id, op.draft) <==> k.msg == op.id && s.IsMember(op.draft.conv, k.user);
  }

  lemma RevealBringsCopies(cfg: Config, s: Db, op: Op, k: CopyKey)
    requires op.OpReveal? && k !in s.receipts
    ensures k in Step(cfg, s, op).receipts <==> Opens(s, op, k)
  {
    RevealIsAdmittedExactly(cfg, s, op.id, op.user, op.duration);
    hide RevealWindow, IsMediaBurn;
  }

  lemma OthersBringNone(cfg: Config, s: Db, op: Op, k: CopyKey)
    requires !op.OpSend? && !op.OpReveal? && Consistent(cfg, s) && Enabled(s, op) && k !in s.receipts
    ensures k !in Step(cfg, s, op).receipts
  {
    if !MovesClocks(op) {
      ClocksKept(cfg, s, op);
      hide Step;
    } else if op.OpConsume? {
      hide IsMediaBurn;
    } else {
      MarkingKeepsCopies(cfg, s, op);
      hide Step;
    }
  }

  lemma CopiesComeExactly(cfg: Config, s: Db, op: Op, k: CopyKey)
    requires Consistent(cfg, s) && Enabled(s, op) && k !in s.receipts
    ensures k in Step(cfg, s, op).receipts <==> Receives(s, op, k) || Opens(s, op, k)
  {
    hide Consistent, Step, Enabled;
    if op.OpSend? {
      SendBringsCopies(cfg, s, op, k);
    } else if op.OpReveal? {
      RevealBringsCopies(cfg, s, op, k);
    } else {
      OthersBringNone(cfg, s, op, k);
    }
  }

  // ----- its mark -----

  /** The same mark, or the same lack of one. */
  predicate SameMark(m: Message, m': Message) {
    m'.isDestroyed == m.isDestroyed && m'.destroyedAt == m.destroyedAt && m'.destroyReason == m.destroyReason
  }

  lemma ManualMarksExactly(cfg: Config, s: Db, op: Op, id: MsgId)
    requires op.OpManualDestroy? && id in s.messages && id in Step(cfg, s, op).messages
    ensures
      var m, m' := s.messages[id], Step(cfg, s, op).messages[id];
      if op == OpManualDestroy(id) && !m.isDestroyed then
        m'.isDestroyed && m'.destroyedAt == Some(s.now) && m'.destroyReason == Some(Manual)
      else SameMark(m, m')
  {
  }

  lemma OthersKeepMarks(cfg: Config, s: Db, op: Op, id: MsgId)
    requires !op.OpMarkDestroyed? && !op.OpManualDestroy? && Consistent(cfg, s) && Enabled(s, op)
    requires id in s.messages && id in Step(cfg, s, op).messages
    ensures SameMark(s.messages[id], Step(cfg, s, op).messages[id])
  {
    hide Step, Enabled, Consistent, Evolves;
    StepIsSafe(cfg, s, op);
    RowFacts(cfg, s, id);
    RowFacts(cfg, Step(cfg, s, op), id);
    RowMoves(cfg, s, Step(cfg, s, op), id);
    if !s.messages[id].isDestroyed {
      if Purges(op) {
        PurgingMarksNothing(cfg, s, op, id);
      } else {
        OthersMarkNothing(cfg, s, op, id);
      }
    }
  }

  /**
   * Besides the tick, only an administrator marks a message: exactly the one they name, if it was
   * not marked before, now and by hand. No other request sets or moves a mark.
   */
  lemma MarksMoveExactly(cfg: Config, s: Db, op: Op, id: MsgId)
    requires Consistent(cfg, s) && Enabled(s, op) && !op.OpMarkDestroyed? && id in s.messages && id in Step(cfg, s, op).messages
    ensures
      var m, m' := s.messages[id], Step(cfg, s, op).messages[id];
      if op == OpManualDestroy(id) && !m.isDestroyed then
        m'.isDestroyed && m'.destroyedAt == Some(s.now) && m'.destroyReason == Some(Manual)
      else SameMark(m, m')
  {
    hide Consistent, Enabled, Step;
    if op.OpManualDestroy? {
      ManualMarksExactly(cfg, s, op, id);
    } else {
      OthersKeepMarks(cfg, s, op, id);
    }
  }
}
