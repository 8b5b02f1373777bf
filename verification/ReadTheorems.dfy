/** Read receipts, watermarks and unread counts over whole runs. */
module ReadTheorems {
  import opened Prelude
  import opened ChatDb
  import opened BurnSpec
  import opened ConversationSpec
  import opened Runs
  import opened ChatInvariant
  import opened BurnTheorems
  import opened MembershipTheorems

  // ----- read receipts -----

  /** Nothing ever turns a read message unread. */
  lemma ReadStaysRead(cfg: Config, s: Db, ops: seq<Op>, k: CopyKey)
    requires Reachable(cfg, s) && Run(cfg, s, ops)
    requires k in s.receipts && s.receipts[k].isRead
    ensures
      var s' := Exec(cfg, s, ops);
      k.msg in s'.messages ==> k in s'.receipts && s'.receipts[k].isRead
  {
    hide Consistent, Evolves, Reachable;
    ReachableIsConsistent(cfg, s);
    RunIsSafe(cfg, s, ops);
    CopyMoves(cfg, s, Exec(cfg, s, ops), k);
  }

  lemma AdvanceKeepsReceipts(s: Db, c: ConvId, u: UserId, candidate: MsgId)
    ensures
      var s' := AdvanceLastRead(s, c, u, candidate);
      s'.receipts == s.receipts && s'.messages == s.messages && s'.now == s.now && s'.convs == s.convs
  {
  }

  /**
   * A bounded mark reads exactly the caller's markable copies up to the bound: nobody else's,
   * nothing newer than the bound, no unopened burn message, no encrypted one.
   */
  lemma BulkMarkIsExact(s: Db, c: ConvId, u: UserId, upTo: Option<MsgId>, newest: seq<MsgId>, k: CopyKey)
    requires s.IsMember(c, u) && k in s.receipts
    ensures
      var s' := MarkAsRead(s, c, u, upTo, newest);
      && k in s'.receipts
      && (s'.receipts[k] != s.receipts[k] ==>
            && k.user == u && !s.receipts[k].isRead && s'.receipts[k].isRead
            && k.msg in s.messages && s.messages[k.msg].conv == c
            && !s.messages[k.msg].isDestroyed && !s.messages[k.msg].isEncrypted
            && (s.messages[k.msg].IsBurn() ==> s.receipts[k].revealedAt.Some?)
            && (upTo.Some? && upTo.value in s.messages && s.messages[upTo.value].conv == c ==>
                  s.messages[k.msg].createdAt <= s.messages[upTo.value].createdAt))
      && (BulkMarkable(s, c, u, ReadBound(s, c, upTo), k) ==> s'.receipts[k].isRead)
  {
    var ks := set x | x in s.receipts && BulkMarkable(s, c, u, ReadBound(s, c, upTo), x);
    if newest != [] {
      AdvanceKeepsReceipts(SetRead(s, ks), c, u, newest[0]);
    }
  }

  // ----- the watermark -----

  function WatermarkOf(s: Db, c: ConvId, u: UserId): Option<MsgId> {
    if s.IsMember(c, u) then s.members[MemberKey(c, u)].lastRead else None
  }

  /** If both watermarks still have rows, the new one is not older. */
  predicate NotOlder(s: Db, before: Option<MsgId>, after: Option<MsgId>) {
    before.Some? && before.value in s.messages && after.Some? && after.value in s.messages ==>
      s.messages[before.value].createdAt <= s.messages[after.value].createdAt
  }

  lemma AdvanceIsMonotone(s: Db, c: ConvId, u: UserId, candidate: MsgId, d: ConvId, v: UserId)
    ensures
      var s' := AdvanceLastRead(s, c, u, candidate);
      NotOlder(s', WatermarkOf(s, d, v), WatermarkOf(s', d, v))
  {
  }

  lemma ReadingMovesForward(cfg: Config, s: Db, op: Op, c: ConvId, u: UserId)
    requires op.OpMarkAsRead? || op.OpMarkMessagesRead?
    ensures NotOlder(Step(cfg, s, op), WatermarkOf(s, c, u), WatermarkOf(Step(cfg, s, op), c, u))
  {
    hide AdvanceLastRead, BulkMarkable, ListedUnread, ReadBound, MarkMessagesReadError;
    if op.newest != [] {
      if op.OpMarkAsRead? {
        var ks := set x | x in s.receipts && BulkMarkable(s, op.conv, op.user, ReadBound(s, op.conv, op.upTo), x);
        AdvanceIsMonotone(SetRead(s, ks), op.conv, op.user, op.newest[0], c, u);
      } else {
        AdvanceIsMonotone(SetRead(s, ListedUnread(s, op.conv, op.user, op.ids)), op.conv, op.user, op.newest[0], c, u);
      }
    }
  }

  /** Requests on the directory leave a watermark alone or drop it with its member row. */
  lemma DirectoryKeepsWatermarks(cfg: Config, s: Db, op: Op, c: ConvId, u: UserId)
    requires DirectoryOp(op) && Enabled(s, op)
    requires forall k | k in s.members :: k.conv in s.convs
    ensures WatermarkOf(Step(cfg, s, op), c, u).Some? ==> WatermarkOf(Step(cfg, s, op), c, u) == WatermarkOf(s, c, u)
  {
    if op.OpCreateGroup? || op.OpCreateChannel? || op.OpOpenPrivate? {
      NewRowsHaveNoWatermark(cfg, s, op, c, u);
    } else if op.OpTransferOwnership? || op.OpDissolveGroup? || op.OpSetVisibility? {
    } else {
      hide Newcomers, IsOwner, RemoveMemberError;
    }
  }

  lemma FreshRowsHaveNoWatermark(s: Db, added: ConvId, conv: Conversation, rows: map<MemberKey, Membership>,
                                 c: ConvId, u: UserId)
    requires forall k | k in rows :: rows[k].lastRead.None?
    ensures
      var s' := NewConversation(s, added, conv, rows);
      WatermarkOf(s', c, u).Some? ==> WatermarkOf(s', c, u) == WatermarkOf(s, c, u)
  {
  }

  lemma NewRowsHaveNoWatermark(cfg: Config, s: Db, op: Op, c: ConvId, u: UserId)
    requires op.OpCreateGroup? || op.OpCreateChannel? || op.OpOpenPrivate?
    ensures WatermarkOf(Step(cfg, s, op), c, u).Some? ==> WatermarkOf(Step(cfg, s, op), c, u) == WatermarkOf(s, c, u)
  {
    hide RepeatsOther, HasChannel, SharedPrivate, NewConversation, WatermarkOf;
    if op.OpCreateGroup? {
      var others := Ids(op.memberIds) - {op.owner};
      FreshRowsHaveNoWatermark(s, op.conv, Conversation(Group, Some(op.owner), true, 0, None, None), map[], c, u);
      FreshRowsHaveNoWatermark(s, op.conv, Conversation(Group, Some(op.owner), true, 1 + |others|, None, None),
                               MemberRows(op.conv, others) + OwnerRow(op.conv, op.owner), c, u);
    } else if op.OpCreateChannel? {
      FreshRowsHaveNoWatermark(s, op.conv, Conversation(Channel, Some(op.owner), true, 1, None, None), OwnerRow(op.conv, op.owner), c, u);
    } else {
      FreshRowsHaveNoWatermark(s, op.conv, Conversation(Private, None, true, 0, None, None), map[], c, u);
      FreshRowsHaveNoWatermark(s, op.conv, Conversation(Private, None, true, 2, None, None),
                               MemberRows(op.conv, {op.user, op.peer}), c, u);
    }
  }

  /** In every step of every run, a watermark that moves between existing rows moves forward. */
  lemma WatermarkStep(cfg: Config, s: Db, op: Op, c: ConvId, u: UserId)
    requires Reachable(cfg, s) && Enabled(s, op)
    ensures NotOlder(Step(cfg, s, op), WatermarkOf(s, c, u), WatermarkOf(Step(cfg, s, op), c, u))
  {
    hide Step, Enabled, Reachable;
    if op.OpMarkAsRead? || op.OpMarkMessagesRead? {
      ReadingMovesForward(cfg, s, op, c, u);
    } else if DirectoryOp(op) {
      OwnershipAndCounts(cfg, s);
      DirectoryKeepsWatermarks(cfg, s, op, c, u);
    } else if op.OpMarkDestroyed? || op.OpManualDestroy? || op.OpAck? || op.OpSweep? {
      PurgeStepsKeepRoles(cfg, s, op);
    } else if op.OpOwnerDissolve? || op.OpDissolveOnAccountDelete? {
      DissolveStepsKeepRoles(cfg, s, op);
    } else {
      CopyStepsKeepRoles(cfg, s, op);
    }
  }

  /**
   * Once the watermark's row has been purged there is nothing to compare with: the next mark
   * moves the watermark to its candidate, however old that is.
   */
  lemma PurgedWatermarkYields(s: Db, c: ConvId, u: UserId, candidate: MsgId)
    requires s.IsMember(c, u) && candidate in s.messages
    requires WatermarkOf(s, c, u).Some? && WatermarkOf(s, c, u).value != candidate
    ensures
      var mark := WatermarkOf(s, c, u).value;
      WatermarkOf(AdvanceLastRead(s, c, u, candidate), c, u) == Some(candidate)
      <==> mark !in s.messages || s.messages[mark].createdAt <= s.messages[candidate].createdAt
  {
  }

  // ----- the unread count -----

  /** What `listMyConversations` counts for a user in a conversation. */
  function UnreadIn(s: Db, c: ConvId, u: UserId): set<CopyKey> {
    set k | k in s.receipts && k.user == u && !s.receipts[k].isRead && k.msg in s.messages
            && s.messages[k.msg].conv == c && !Gone(s.messages[k.msg], s.now)
  }

  /** A message that is marked, expired or purged is unread for nobody, in any continuation of the run. */
  lemma GoneIsNeverUnread(cfg: Config, s: Db, ops: seq<Op>, id: MsgId, c: ConvId, u: UserId)
    requires Reachable(cfg, s) && Run(cfg, s, ops)
    requires id in s.tombstones || (id in s.messages && (s.messages[id].isDestroyed || s.messages[id].Expired(s.now)))
    ensures CopyKey(id, u) !in UnreadIn(Exec(cfg, s, ops), c, u)
  {
    hide Reachable, Run, Exec, RevealError;
    GoneForGood(cfg, s, ops, id, u);
  }

  /** After marking the whole conversation, what is left unread is encrypted or an unopened burn message. */
  lemma UnreadAfterMarkAll(cfg: Config, s: Db, c: ConvId, u: UserId, newest: seq<MsgId>)
    requires s.IsMember(c, u)
    ensures UnreadIn(MarkAsRead(s, c, u, None, newest), c, u)
            == set k | k in UnreadIn(s, c, u)
                 && (s.messages[k.msg].isEncrypted || (s.messages[k.msg].IsBurn() && s.receipts[k].revealedAt.None?))
  {
    var ks := set x | x in s.receipts && BulkMarkable(s, c, u, None, x);
    if newest != [] {
      AdvanceKeepsReceipts(SetRead(s, ks), c, u, newest[0]);
      hide AdvanceLastRead;
    }
  }

  /** A send raises the count by one for every other member, and for nobody else. */
  lemma SendRaisesByOne(cfg: Config, s: Db, id: MsgId, d: Draft, c: ConvId, u: UserId)
    requires Reachable(cfg, s) && Enabled(s, OpSend(id, d)) && SendError(s, d).None?
    ensures
      var s' := Step(cfg, s, OpSend(id, d));
      if c == d.conv && s.IsMember(c, u) && u != d.sender then
        UnreadIn(s', c, u) == UnreadIn(s, c, u) + {CopyKey(id, u)} && |UnreadIn(s', c, u)| == |UnreadIn(s, c, u)| + 1
      else
        UnreadIn(s', c, u) == UnreadIn(s, c, u)
  {
    var s' := Step(cfg, s, OpSend(id, d));
    hide Consistent, Reachable, Compose, SendError, Step;
    ReachableIsConsistent(cfg, s);
    SentIsAlive(cfg, s, id, d);
    forall k ensures k in UnreadIn(s', c, u) <==>
                       k in UnreadIn(s, c, u) || (k == CopyKey(id, u) && c == d.conv && s.IsMember(c, u) && u != d.sender)
    {
      SentCopies(cfg, s, id, d, k);
    }
    assert CopyKey(id, u) !in UnreadIn(s, c, u);
  }

  lemma SentCopies(cfg: Config, s: Db, id: MsgId, d: Draft, k: CopyKey)
    requires Consistent(cfg, s) && Enabled(s, OpSend(id, d)) && SendError(s, d).None?
    ensures
      var s' := Step(cfg, s, OpSend(id, d));
      && s'.now == s.now
      && s'.messages == s.messages[id := Compose(cfg, s, d)]
      && if k.msg == id then
           && k !in s.receipts
           && (k in s'.receipts <==> s.IsMember(d.conv, k.user))
           && (k in s'.receipts ==> s'.receipts[k].isRead == (k.user == d.sender))
         else
           (k in s'.receipts <==> k in s.receipts) && (k in s.receipts ==> s'.receipts[k] == s.receipts[k])
  {
    if k in s.receipts {
      assert CopyOk(s, k);
    }
    hide Consistent, Compose, SendError;
    assert k.msg == id && k in NewCopies(s, id, d) ==> MemberKey(d.conv, k.user) in s.Roster(d.conv);
    assert MemberKey(d.conv, k.user) in s.Roster(d.conv) <==> s.IsMember(d.conv, k.user);
  }

  lemma SentIsAlive(cfg: Config, s: Db, id: MsgId, d: Draft)
    requires SendError(s, d).None?
    ensures
      var m := Compose(cfg, s, d);
      m.conv == d.conv && !Gone(m, s.now)
  {
  }

  /** A step that is not an admitted send into the conversation never raises the count. */
  lemma NothingElseRaises(cfg: Config, s: Db, op: Op, c: ConvId, u: UserId)
    requires Reachable(cfg, s) && Enabled(s, op)
    requires op.OpSend? ==> SendError(s, op.draft).Some? || op.draft.conv != c
    ensures UnreadIn(Step(cfg, s, op), c, u) <= UnreadIn(s, c, u)
    ensures |UnreadIn(Step(cfg, s, op), c, u)| <= |UnreadIn(s, c, u)|
  {
    var s' := Step(cfg, s, op);
    if op.OpSend? && SendError(s, op.draft).None? {
      SendRaisesByOne(cfg, s, op.id, op.draft, c, u);
    } else {
      ReachableIsConsistent(cfg, s);
      StepIsSafe(cfg, s, op);
      hide Consistent, Evolves, Reachable, Step;
      forall k | k in UnreadIn(s', c, u) ensures k in UnreadIn(s, c, u) {
        if k !in s.receipts {
          NewCopiesAreRead(cfg, s, op, k);
        } else {
          CopyMoves(cfg, s, s', k);
          RowMoves(cfg, s, s', k.msg);
        }
      }
    }
    SubsetSize(UnreadIn(s', c, u), UnreadIn(s, c, u));
  }

  /** Only an admitted send and a late joiner's reveal create receipts; the latter are read at once. */
  lemma NewCopiesAreRead(cfg: Config, s: Db, op: Op, k: CopyKey)
    requires Consistent(cfg, s) && Enabled(s, op) && !(op.OpSend? && SendError(s, op.draft).None?)
    requires k in Step(cfg, s, op).receipts && k !in s.receipts
    ensures Step(cfg, s, op).receipts[k].isRead
  {
    if !MovesClocks(op) && !op.OpSend? {
      ClocksKept(cfg, s, op);
    } else {
      hide Consistent, Enabled, RevealWindow, IsMediaBurn, Compose;
    }
  }
}
