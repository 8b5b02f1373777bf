/** Who joins and leaves a conversation, and who closes it, said of the tables alone. */
module RosterTheorems {
  import opened Prelude
  import opened ChatDb
  import opened BurnSpec
  import opened ConversationSpec
  import opened Runs
  import opened MembershipTheorems

  predicate Owns(s: Db, c: ConvId, u: UserId) {
    MemberKey(c, u) in s.members && s.members[MemberKey(c, u)].role == Owner
  }

  predicate IsOpenChannel(s: Db, c: ConvId) {
    c in s.convs && s.convs[c].kind == Channel && s.convs[c].dissolvedAt.None?
  }

  /** Whoever is listed twice is among `known`. */
  predicate ListsOnce(ids: seq<UserId>, known: set<UserId>) {
    forall i, j | 0 <= i < j < |ids| && ids[i] == ids[j] :: ids[i] in known
  }

  /** An owner adds them, or they subscribe to a public channel. */
  predicate Joins(s: Db, op: Op, c: ConvId, u: UserId) {
    || (op.OpAddMembers? && op.conv == c && u in op.memberIds && Owns(s, c, op.operator) && ListsOnce(op.memberIds, Users(s, c)))
    || (op == OpSubscribe(c, u) && IsOpenChannel(s, c) && s.convs[c].isPublic)
  }

  /** They leave, an owner or administrator removes them, or they unsubscribe; an owner stays. */
  predicate Leaves(s: Db, op: Op, c: ConvId, u: UserId) {
    || (op.OpRemoveMember? && op.conv == c && op.user == u && !Owns(s, c, u)
        && (op.operator == u || op.isAdmin || Owns(s, c, op.operator)))
    || (op == OpUnsubscribe(c, u) && IsOpenChannel(s, c) && s.convs[c].owner != Some(u))
  }

  /** They found the conversation, or are in it from the start. */
  predicate Founds(s: Db, op: Op, c: ConvId, u: UserId) {
    || (op.OpCreateGroup? && op.conv == c && (u == op.owner || u in op.memberIds) && ListsOnce(op.memberIds, {op.owner}))
    || (op == OpCreateChannel(c, u) && forall d | d in s.convs :: !(IsOpenChannel(s, d) && s.convs[d].owner == Some(u)))
    || (op.OpOpenPrivate? && op.conv == c && op.peerActive && op.user != op.peer && (u == op.user || u == op.peer)
        && forall d | d in s.convs ::
             !(s.convs[d].kind == Private && MemberKey(d, op.user) in s.members && MemberKey(d, op.peer) in s.members))
  }

  lemma OneMoreIsDistinct(xs: seq<UserId>, x: UserId)
    ensures Distinct(xs + [x]) <==> Distinct(xs) && x !in xs
  {
    var ys := xs + [x];
    if Distinct(ys) {
      assert forall i | 0 <= i < |xs| :: ys[i] == xs[i] && ys[i] != ys[|xs|];
    }
  }

  lemma OneMoreIsListed(ids: seq<UserId>, x: UserId, known: set<UserId>)
    ensures ListsOnce(ids + [x], known) <==> ListsOnce(ids, known) && (x in ids ==> x in known)
  {
    var all := ids + [x];
    if ListsOnce(all, known) {
      assert forall i | 0 <= i < |ids| :: all[i] == ids[i] && (all[i] == all[|ids|] ==> all[i] in known);
    }
  }

  /** `Without` keeps the others, in their order: it repeats somebody exactly if the list does. */
  lemma {:induction false} RepeatsOutside(ids: seq<UserId>, known: set<UserId>)
    ensures Distinct(Without(ids, known)) <==> ListsOnce(ids, known)
  {
    if ids != [] {
      var init, last := ids[..|ids| - 1], ids[|ids| - 1];
      var kept := Without(init, known);
      assert ids == init + [last];
      RepeatsOutside(init, known);
      assert last in kept <==> last in Ids(kept);
      assert last in init <==> last in Ids(init);
      OneMoreIsDistinct(kept, last);
      OneMoreIsListed(init, last, known);
      hide Distinct, ListsOnce;
    }
  }

  // ----- one kind of request at a time -----

  /** Who is in the conversation afterwards. */
  predicate MovesTo(s: Db, op: Op, s': Db, c: ConvId, u: UserId) {
    MemberKey(c, u) in s'.members <==> (MemberKey(c, u) in s.members && !Leaves(s, op, c, u)) || Joins(s, op, c, u) || Founds(s, op, c, u)
  }

  lemma CreatedRows(s: Db, d: ConvId, owner: UserId, memberIds: seq<UserId>, c: ConvId, u: UserId)
    ensures MemberKey(c, u) in CreateGroup(s, d, owner, memberIds).members
            <==> MemberKey(c, u) in s.members || (!RepeatsOther(memberIds, owner) && c == d && (u == owner || u in memberIds))
  {
    hide RepeatsOther;
    var others := Ids(memberIds) - {owner};
    assert MemberKey(c, u) in MemberRows(d, others) <==> c == d && u in others;
  }

  lemma GroupMoves(cfg: Config, s: Db, op: Op, c: ConvId, u: UserId)
    requires op.OpCreateGroup?
    ensures MovesTo(s, op, Step(cfg, s, op), c, u)
  {
    RepeatsOutside(op.memberIds, {op.owner});
    CreatedRows(s, op.conv, op.owner, op.memberIds, c, u);
    hide Distinct, ListsOnce, CreateGroup, Without;
  }

  lemma AddedRows(s: Db, d: ConvId, memberIds: seq<UserId>, operator: UserId, c: ConvId, u: UserId)
    ensures MemberKey(c, u) in AddMembers(s, d, memberIds, operator).members
            <==> MemberKey(c, u) in s.members || (AddMembersError(s, d, memberIds, operator).None? && c == d && u in memberIds)
  {
    hide AddMembersError;
    var added := Newcomers(s, d, memberIds);
    assert MemberKey(c, u) in MemberRows(d, added) <==> c == d && u in added;
  }

  lemma AddingMoves(cfg: Config, s: Db, op: Op, c: ConvId, u: UserId)
    requires op.OpAddMembers?
    ensures MovesTo(s, op, Step(cfg, s, op), c, u)
  {
    RepeatsOutside(op.memberIds, Users(s, op.conv));
    AddedRows(s, op.conv, op.memberIds, op.operator, c, u);
    hide Distinct, ListsOnce, Users, AddMembers, Without;
  }

  lemma LeavingMoves(cfg: Config, s: Db, op: Op, c: ConvId, u: UserId)
    requires op.OpRemoveMember? || op.OpSubscribe? || op.OpUnsubscribe?
    ensures MovesTo(s, op, Step(cfg, s, op), c, u)
  {
    hide ListsOnce, Users;
  }

  lemma ChannelMoves(cfg: Config, s: Db, op: Op, c: ConvId, u: UserId)
    requires op.OpCreateChannel? || op.OpTransferOwnership?
    ensures MovesTo(s, op, Step(cfg, s, op), c, u)
  {
  }

  lemma PrivateMoves(cfg: Config, s: Db, op: Op, c: ConvId, u: UserId)
    requires op.OpOpenPrivate?
    ensures MovesTo(s, op, Step(cfg, s, op), c, u)
  {
    assert SharedPrivate(s, op.user, op.peer) == {} <==>
      forall d | d in s.convs :: d !in SharedPrivate(s, op.user, op.peer);
  }

  lemma OthersMoveNobody(s: Db, op: Op, s': Db, c: ConvId, u: UserId)
    requires KeepsRoles(op) && SameRoles(s, s')
    ensures MovesTo(s, op, s', c, u)
  {
  }

  /**
   * Who belongs to what, after every request and tick: whoever belonged and did not leave, who
   * joined, and who founded. Nobody gets in or out in any other way.
   */
  lemma MembershipMovesExactly(cfg: Config, s: Db, op: Op, c: ConvId, u: UserId)
    ensures MovesTo(s, op, Step(cfg, s, op), c, u)
  {
    hide MovesTo, Step, SameRoles;
    if KeepsRoles(op) {
      RolesAreKept(cfg, s, op);
      OthersMoveNobody(s, op, Step(cfg, s, op), c, u);
    } else if op.OpCreateGroup? {
      GroupMoves(cfg, s, op, c, u);
    } else if op.OpAddMembers? {
      AddingMoves(cfg, s, op, c, u);
    } else if op.OpOpenPrivate? {
      PrivateMoves(cfg, s, op, c, u);
    } else if op.OpCreateChannel? || op.OpTransferOwnership? {
      ChannelMoves(cfg, s, op, c, u);
    } else {
      LeavingMoves(cfg, s, op, c, u);
    }
  }

  // ----- conversations -----

  /** The owner hands a group that is not dissolved over to another member. */
  predicate HandsOver(s: Db, op: Op, c: ConvId) {
    && op.OpTransferOwnership? && op.conv == c && op.current != op.successor
    && c in s.convs && s.convs[c].kind == Group && s.convs[c].dissolvedAt.None? && s.convs[c].owner == Some(op.current)
    && MemberKey(c, op.current) in s.members && MemberKey(c, op.successor) in s.members
  }

  /** An administrator dissolves a group. */
  predicate Closes(s: Db, op: Op, c: ConvId) {
    op == OpDissolveGroup(c) && c in s.convs && s.convs[c].kind == Group && s.convs[c].dissolvedAt.None?
  }

  /** The owner dissolves it, or loses the account that owns the group. */
  predicate BurnsDown(s: Db, op: Op, c: ConvId) {
    && c in s.convs && s.convs[c].dissolvedAt.None?
    && (|| (op.OpOwnerDissolve? && op.conv == c && s.convs[c].kind == op.kind && s.convs[c].owner == Some(op.operator))
        || (op.OpDissolveOnAccountDelete? && s.convs[c].kind == Group && s.convs[c].owner == Some(op.owner) && c !in op.failing))
  }

  predicate Publishes(s: Db, op: Op, c: ConvId) {
    op.OpSetVisibility? && op.conv == c && IsOpenChannel(s, c) && s.convs[c].owner == Some(op.user)
  }

  predicate ConversationMoves(s: Db, op: Op, s': Db, c: ConvId)
    requires c in s.convs
  {
    var conv := s.convs[c];
    && c in s'.convs
    && s'.convs[c] == conv.(
         memberCount := s'.convs[c].memberCount,
         owner := if HandsOver(s, op, c) then Some(op.successor) else conv.owner,
         isPublic := if Publishes(s, op, c) then op.isPublic else conv.isPublic,
         dissolvedAt := if Closes(s, op, c) || BurnsDown(s, op, c) then Some(s.now) else conv.dissolvedAt,
         dissolvedBy := if BurnsDown(s, op, c) then Some(op.operator) else conv.dissolvedBy)
  }

  predicate TouchesConversations(op: Op) {
    op.OpOwnerDissolve? || op.OpDissolveOnAccountDelete? || op.OpDissolveGroup? || op.OpSetVisibility? || op.OpTransferOwnership?
  }

  lemma DissolvingMoves(cfg: Config, s: Db, op: Op, c: ConvId)
    requires op.OpOwnerDissolve? || op.OpDissolveOnAccountDelete?
    requires c in s.convs
    ensures ConversationMoves(s, op, Step(cfg, s, op), c)
  {
  }

  lemma AdministratingMoves(cfg: Config, s: Db, op: Op, c: ConvId)
    requires op.OpDissolveGroup? || op.OpSetVisibility?
    requires c in s.convs
    ensures ConversationMoves(s, op, Step(cfg, s, op), c)
  {
  }

  lemma TransferMoves(cfg: Config, s: Db, op: Op, c: ConvId)
    requires op.OpTransferOwnership? && c in s.convs
    ensures ConversationMoves(s, op, Step(cfg, s, op), c)
  {
  }

  lemma CountingMoves(cfg: Config, s: Db, op: Op, c: ConvId)
    requires op.OpAddMembers? || op.OpRemoveMember? || op.OpSubscribe? || op.OpUnsubscribe?
    requires c in s.convs
    ensures ConversationMoves(s, op, Step(cfg, s, op), c)
  {
    hide Newcomers, RepeatsNewcomer, IsOwner, MemberRows, Db.Roster;
  }

  lemma FoundingMoves(cfg: Config, s: Db, op: Op, c: ConvId)
    requires (op.OpCreateGroup? || op.OpCreateChannel? || op.OpOpenPrivate?) && Enabled(s, op)
    requires c in s.convs
    ensures ConversationMoves(s, op, Step(cfg, s, op), c)
  {
    hide RepeatsOther, HasChannel, SharedPrivate, MemberRows, OwnerRow, Ids;
  }

  lemma OthersLeaveConversations(cfg: Config, s: Db, op: Op, c: ConvId)
    requires KeepsRoles(op) && !TouchesConversations(op) && c in s.convs
    ensures Step(cfg, s, op).convs == s.convs && ConversationMoves(s, op, s.(convs := Step(cfg, s, op).convs), c)
  {
    if op.OpMarkAsRead? || op.OpMarkMessagesRead? {
      ReadingLeavesConversations(cfg, s, op);
    } else if op.OpMarkDestroyed? || op.OpManualDestroy? || op.OpAck? || op.OpSweep? {
      MarkingLeavesConversations(cfg, s, op);
    } else {
      WritingLeavesConversations(cfg, s, op);
    }
    hide Step;
  }

  lemma ReadingLeavesConversations(cfg: Config, s: Db, op: Op)
    requires op.OpMarkAsRead? || op.OpMarkMessagesRead?
    ensures Step(cfg, s, op).convs == s.convs
  {
    hide BulkMarkable, ListedUnread, MarkMessagesReadError, ReadBound;
  }

  lemma MarkingLeavesConversations(cfg: Config, s: Db, op: Op)
    requires op.OpMarkDestroyed? || op.OpManualDestroy? || op.OpAck? || op.OpSweep?
    ensures Step(cfg, s, op).convs == s.convs
  {
    hide AckPurges, SweepPurges, AckError, Marked, Listed;
  }

  lemma WritingLeavesConversations(cfg: Config, s: Db, op: Op)
    requires op.OpElapse? || op.OpSend? || op.OpReveal? || op.OpConsume? || op.OpEdit? || op.OpRecall? || op.OpPatchOriginal?
    ensures Step(cfg, s, op).convs == s.convs
  {
    hide RevealWindow, IsMediaBurn, Compose, NewCopies;
  }

  /**
   * What every request and tick does to a conversation: its owner changes by a transfer among
   * members, its visibility by its owner, and it is closed once, by an administrator, its owner
   * or the end of the owner's account, which alone burn it down. Its kind never changes and it
   * never goes away.
   */
  lemma ConversationMovesExactly(cfg: Config, s: Db, op: Op, c: ConvId)
    requires Enabled(s, op) && c in s.convs
    ensures ConversationMoves(s, op, Step(cfg, s, op), c)
  {
    hide ConversationMoves, Step, Enabled;
    if op.OpOwnerDissolve? || op.OpDissolveOnAccountDelete? {
      DissolvingMoves(cfg, s, op, c);
    } else if op.OpDissolveGroup? || op.OpSetVisibility? {
      AdministratingMoves(cfg, s, op, c);
    } else if op.OpTransferOwnership? {
      TransferMoves(cfg, s, op, c);
    } else if op.OpAddMembers? || op.OpRemoveMember? || op.OpSubscribe? || op.OpUnsubscribe? {
      CountingMoves(cfg, s, op, c);
    } else if op.OpCreateGroup? || op.OpCreateChannel? || op.OpOpenPrivate? {
      FoundingMoves(cfg, s, op, c);
    } else {
      OthersLeaveConversations(cfg, s, op, c);
      SameConversation(s, op, s.(convs := Step(cfg, s, op).convs), Step(cfg, s, op), c);
    }
  }

  lemma SameConversation(s: Db, op: Op, s1: Db, s': Db, c: ConvId)
    requires c in s.convs && s1.convs == s'.convs && ConversationMoves(s, op, s1, c)
    ensures ConversationMoves(s, op, s', c)
  {
  }

  /** What a new conversation is like, and that one comes with every group, every first channel of an owner, every first private pair. */
  predicate ConversationComes(s: Db, op: Op, s': Db, c: ConvId)
    requires op.OpCreateGroup? || op.OpCreateChannel? || op.OpOpenPrivate?
  {
    && (c in s'.convs <==>
          op.conv == c && (op.OpCreateGroup? || Founds(s, op, c, if op.OpCreateChannel? then op.owner else op.user)
                           || (op.OpOpenPrivate? && op.peerActive && op.user == op.peer
                               && forall d | d in s.convs :: !(s.convs[d].kind == Private && MemberKey(d, op.user) in s.members))))
    && (c in s'.convs ==>
          && s'.convs[c].isPublic && s'.convs[c].dissolvedAt.None? && s'.convs[c].dissolvedBy.None?
          && s'.convs[c].kind == (if op.OpCreateGroup? then Group else if op.OpCreateChannel? then Channel else Private)
          && s'.convs[c].owner == if op.OpOpenPrivate? then None else Some(op.owner))
  }

  lemma PrivateComes(cfg: Config, s: Db, op: Op, c: ConvId)
    requires op.OpOpenPrivate? && c !in s.convs
    ensures ConversationComes(s, op, Step(cfg, s, op), c)
  {
    assert SharedPrivate(s, op.user, op.peer) == {} <==>
      forall d | d in s.convs :: d !in SharedPrivate(s, op.user, op.peer);
    hide MemberRows;
  }

  lemma ChannelComes(cfg: Config, s: Db, op: Op, c: ConvId)
    requires op.OpCreateChannel? && c !in s.convs
    ensures ConversationComes(s, op, Step(cfg, s, op), c)
  {
    hide OwnerRow;
  }

  lemma GroupComes(cfg: Config, s: Db, op: Op, c: ConvId)
    requires op.OpCreateGroup? && c !in s.convs
    ensures ConversationComes(s, op, Step(cfg, s, op), c)
  {
    hide RepeatsOther, MemberRows, OwnerRow, Ids, Founds;
  }

  lemma OthersFoundNone(cfg: Config, s: Db, op: Op, c: ConvId)
    requires !op.OpCreateGroup? && !op.OpCreateChannel? && !op.OpOpenPrivate? && c !in s.convs
    ensures c !in Step(cfg, s, op).convs
  {
    if KeepsRoles(op) {
      RolesAreKept(cfg, s, op);
      hide Step;
    } else {
      hide Newcomers, RepeatsNewcomer, IsOwner, MemberRows, Db.Roster;
    }
  }

  /** Where conversations come from. */
  lemma ConversationsComeExactly(cfg: Config, s: Db, op: Op, c: ConvId)
    requires c !in s.convs
    ensures if op.OpCreateGroup? || op.OpCreateChannel? || op.OpOpenPrivate? then ConversationComes(s, op, Step(cfg, s, op), c)
            else c !in Step(cfg, s, op).convs
  {
    hide Step, ConversationComes;
    if op.OpOpenPrivate? {
      PrivateComes(cfg, s, op, c);
    } else if op.OpCreateChannel? {
      ChannelComes(cfg, s, op, c);
    } else if op.OpCreateGroup? {
      GroupComes(cfg, s, op, c);
    } else {
      OthersFoundNone(cfg, s, op, c);
    }
  }

  // ----- refusals -----

  /** Which requests of a group are refused, and that only somebody without the right is forbidden. */
  lemma GroupRefusals(s: Db, c: ConvId, u: UserId, operator: UserId, isAdmin: bool, memberIds: seq<UserId>)
    ensures AddMembersError(s, c, memberIds, operator) == Some(Forbidden) <==> !Owns(s, c, operator)
    ensures AddMembersError(s, c, memberIds, operator).None? <==> Owns(s, c, operator) && ListsOnce(memberIds, Users(s, c))
    ensures RemoveMemberError(s, c, u, operator, isAdmin) == Some(NotFound) <==> u == operator && MemberKey(c, u) !in s.members
    ensures RemoveMemberError(s, c, u, operator, isAdmin) == Some(Forbidden) <==>
              Owns(s, c, u) || (u != operator && !isAdmin && !Owns(s, c, operator))
    ensures RemoveMemberError(s, c, u, operator, isAdmin).Some? ==>
              RemoveMemberError(s, c, u, operator, isAdmin).value in {NotFound, Forbidden}
    ensures TransferError(s, c, operator, u).None? <==> HandsOver(s, OpTransferOwnership(c, operator, u), c)
    ensures TransferError(s, c, operator, u) == Some(Forbidden) <==>
              operator != u && c in s.convs && s.convs[c].kind == Group && s.convs[c].dissolvedAt.None? && s.convs[c].owner != Some(operator)
  {
    RepeatsOutside(memberIds, Users(s, c));
    hide Distinct, ListsOnce, Users, Without;
  }

  lemma ChannelRefusals(s: Db, c: ConvId, kind: ConversationKind, u: UserId)
    ensures OwnerDissolveError(s, kind, c, u).None? <==> BurnsDown(s, OpOwnerDissolve(kind, c, u), c)
    ensures OwnerDissolveError(s, kind, c, u) == Some(Forbidden) <==>
              c in s.convs && s.convs[c].kind == kind && s.convs[c].dissolvedAt.None? && s.convs[c].owner != Some(u)
    ensures OwnerDissolveError(s, kind, c, u) == Some(NotFound) <==> c !in s.convs || s.convs[c].kind != kind
    ensures SubscribeError(s, c) == Some(NotFound) <==> !IsOpenChannel(s, c)
    ensures SubscribeError(s, c) == Some(Forbidden) <==> IsOpenChannel(s, c) && !s.convs[c].isPublic
    ensures UnsubscribeError(s, c, u) == Some(NotFound) <==> !IsOpenChannel(s, c)
    ensures UnsubscribeError(s, c, u) == Some(BadRequest) <==> IsOpenChannel(s, c) && s.convs[c].owner == Some(u)
  {
  }
}
