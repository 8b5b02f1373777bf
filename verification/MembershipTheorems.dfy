/**
 * Who owns and who belongs to what, in every reachable state: the denormalised owner and
 * member count always agree with the member rows.
 */
module MembershipTheorems {
  import opened Prelude
  import opened ChatDb
  import opened BurnSpec
  import opened ConversationSpec
  import opened Runs
  import opened ChatInvariant

  ghost predicate RowHasConversation(s: Db, k: MemberKey)
    requires k in s.members
  {
    k.conv in s.convs && (s.members[k].role == Owner ==> s.convs[k.conv].owner == Some(k.user))
  }

  /** `strict` adds that a group has rows at all, which a refused member list breaks. */
  ghost predicate ConversationAgrees(s: Db, c: ConvId, strict: bool)
    requires c in s.convs
  {
    && s.convs[c].memberCount == |s.Roster(c)|
    && (s.convs[c].kind == Private ==> s.convs[c].owner.None?)
    && (s.convs[c].kind != Private ==>
          && s.convs[c].owner.Some?
          && (IsOwner(s, c, s.convs[c].owner.value) || (!strict && s.convs[c].kind == Group && s.Roster(c) == {})))
  }

  /** Two undissolved channels have different owners. */
  ghost predicate OneChannelEach(s: Db, c: ConvId, d: ConvId) {
    LiveChannel(s, c) && LiveChannel(s, d) && s.convs[c].owner == s.convs[d].owner ==> c == d
  }

  ghost predicate BothIn(s: Db, c: ConvId, u: UserId, v: UserId) {
    c in s.convs && s.convs[c].kind == Private && s.IsMember(c, u) && s.IsMember(c, v)
  }

  ghost predicate Coherent(s: Db, strict: bool) {
    && (forall k | k in s.members :: RowHasConversation(s, k))
    && (forall c | c in s.convs :: ConversationAgrees(s, c, strict))
    && (forall c, d :: OneChannelEach(s, c, d))
    && (forall c, d, u, v | u != v && BothIn(s, c, u, v) && BothIn(s, d, u, v) :: c == d)
  }

  /** Nothing but watermarks and dissolution stamps moved. */
  ghost predicate SameRoles(s: Db, s': Db) {
    && s'.members.Keys == s.members.Keys
    && s'.convs.Keys == s.convs.Keys
    && (forall k | k in s.members :: s'.members[k].role == s.members[k].role)
    && (forall c | c in s.convs ::
          && s'.convs[c].kind == s.convs[c].kind && s'.convs[c].owner == s.convs[c].owner
          && s'.convs[c].memberCount == s.convs[c].memberCount
          && (s.convs[c].dissolvedAt.Some? ==> s'.convs[c].dissolvedAt.Some?))
  }

  lemma SameRolesKeepsCoherent(s: Db, s': Db, strict: bool)
    requires Coherent(s, strict) && SameRoles(s, s')
    ensures Coherent(s', strict)
  {
    forall k | k in s'.members ensures RowHasConversation(s', k) {
      assert RowHasConversation(s, k);
    }
    forall c | c in s'.convs ensures ConversationAgrees(s', c, strict) {
      assert ConversationAgrees(s, c, strict);
      assert s'.Roster(c) == s.Roster(c);
    }
    forall c, d ensures OneChannelEach(s', c, d) {
      assert OneChannelEach(s, c, d);
    }
    forall c, d, u, v | u != v && BothIn(s', c, u, v) && BothIn(s', d, u, v) ensures c == d {
      assert BothIn(s, c, u, v) && BothIn(s, d, u, v);
    }
  }

  predicate KeepsRoles(op: Op) {
    || op.OpElapse? || op.OpSend? || op.OpReveal? || op.OpConsume? || op.OpEdit? || op.OpRecall? || op.OpPatchOriginal?
    || op.OpMarkAsRead? || op.OpMarkMessagesRead? || op.OpMarkDestroyed? || op.OpManualDestroy? || op.OpAck?
    || op.OpSweep? || op.OpDissolveGroup? || op.OpOwnerDissolve? || op.OpDissolveOnAccountDelete? || op.OpSetVisibility?
  }

  lemma CopyStepsKeepRoles(cfg: Config, s: Db, op: Op)
    requires op.OpElapse? || op.OpSend? || op.OpReveal? || op.OpConsume? || op.OpEdit? || op.OpRecall? || op.OpPatchOriginal?
    ensures SameRoles(s, Step(cfg, s, op)) && Step(cfg, s, op).members == s.members
  {
    hide RevealWindow, IsMediaBurn, Compose, NewCopies;
    var s' := Step(cfg, s, op);
    assert s'.members == s.members && s'.convs == s.convs;
  }

  lemma ReadStepsKeepRoles(cfg: Config, s: Db, op: Op)
    requires op.OpMarkAsRead? || op.OpMarkMessagesRead?
    ensures SameRoles(s, Step(cfg, s, op))
  {
    var ks := ReadStepShape(cfg, s, op);
    hide Step;
  }

  lemma PurgeStepsKeepRoles(cfg: Config, s: Db, op: Op)
    requires op.OpMarkDestroyed? || op.OpManualDestroy? || op.OpAck? || op.OpSweep?
    ensures SameRoles(s, Step(cfg, s, op)) && Step(cfg, s, op).members == s.members
  {
    hide AckPurges, SweepPurges, AckError, Marked, Listed;
    var s' := Step(cfg, s, op);
    assert s'.members == s.members && s'.convs == s.convs;
  }

  lemma DissolveStepsKeepRoles(cfg: Config, s: Db, op: Op)
    requires op.OpDissolveGroup? || op.OpOwnerDissolve? || op.OpDissolveOnAccountDelete? || op.OpSetVisibility?
    ensures SameRoles(s, Step(cfg, s, op)) && Step(cfg, s, op).members == s.members
  {
    if op.OpOwnerDissolve? {
      hide BurnDown, OwnerDissolveError;
      if OwnerDissolveError(s, op.kind, op.conv, op.operator).None? {
        OwnerDissolvesExisting(s, op);
        BurnDownKeepsRoles(s, {op.conv}, op.operator);
      }
    } else if op.OpDissolveOnAccountDelete? {
      BurnDownKeepsRoles(s, OwnedGroups(s, op.owner) - op.failing, op.operator);
      hide BurnDown, OwnedGroups;
    }
  }

  lemma OwnerDissolvesExisting(s: Db, op: Op)
    requires op.OpOwnerDissolve? && OwnerDissolveError(s, op.kind, op.conv, op.operator).None?
    ensures op.conv in s.convs
  {
  }

  lemma BurnDownKeepsRoles(s: Db, cs: set<ConvId>, operator: UserId)
    requires cs <= s.convs.Keys
    ensures SameRoles(s, BurnDown(s, cs, operator)) && BurnDown(s, cs, operator).members == s.members
  {
  }

  // ----- changing the member rows of one conversation -----

  /** The rows of one conversation change by a known set; the rows of the others stay. */
  lemma RosterGrows(s: Db, s': Db, c: ConvId, added: set<MemberKey>)
    requires s'.members.Keys == s.members.Keys + added && added !! s.members.Keys
    requires forall k | k in added :: k.conv == c
    ensures |s'.Roster(c)| == |s.Roster(c)| + |added|
    ensures forall d | d != c :: s'.Roster(d) == s.Roster(d)
  {
    assert s'.Roster(c) == s.Roster(c) + added;
    assert s.Roster(c) !! added;
    forall d | d != c ensures s'.Roster(d) == s.Roster(d) {
      OtherRosterStays(s, s', d);
    }
  }

  lemma OtherRosterStays(s: Db, s': Db, d: ConvId)
    requires forall k: MemberKey | k.conv == d :: k in s'.members.Keys <==> k in s.members.Keys
    ensures s'.Roster(d) == s.Roster(d)
  {
  }

  lemma RosterShrinks(s: Db, s': Db, c: ConvId, k: MemberKey)
    requires k in s.members && k.conv == c && s'.members.Keys == s.members.Keys - {k}
    ensures |s'.Roster(c)| == |s.Roster(c)| - 1
    ensures forall d | d != c :: s'.Roster(d) == s.Roster(d)
  {
    assert s'.Roster(c) == s.Roster(c) - {k};
    forall d | d != c ensures s'.Roster(d) == s.Roster(d) {
      OtherRosterStays(s, s', d);
    }
  }

  /**
   * Plain member rows come or go in one existing or brand-new conversation `c`, whose own
   * bookkeeping is right; no other conversation is touched.
   */
  ghost predicate OneConversation(s: Db, s': Db, c: ConvId, strict: bool) {
    && (forall k: MemberKey | k.conv != c :: (k in s'.members <==> k in s.members) && (k in s.members ==> s'.members[k] == s.members[k]))
    && (forall d: ConvId | d != c :: (d in s'.convs <==> d in s.convs) && (d in s.convs ==> s'.convs[d] == s.convs[d]))
    && (forall k | k in s'.members && k.conv == c :: RowHasConversation(s', k))
    && c in s'.convs && ConversationAgrees(s', c, strict)
  }

  lemma OneConversationKeepsCoherent(s: Db, s': Db, c: ConvId, strict: bool)
    requires Coherent(s, strict) && OneConversation(s, s', c, strict)
    requires forall d | d != c :: OneChannelEach(s', c, d)
    requires s'.convs[c].kind == Private ==>
               forall d, u, v | d != c && u != v && BothIn(s, d, u, v) :: !BothIn(s', c, u, v)
    ensures Coherent(s', strict)
  {
    forall k | k in s'.members ensures RowHasConversation(s', k) {
      if k.conv != c {
        assert RowHasConversation(s, k);
      }
    }
    forall d | d in s'.convs ensures ConversationAgrees(s', d, strict) {
      if d != c {
        assert ConversationAgrees(s, d, strict);
        assert s'.Roster(d) == s.Roster(d);
      }
    }
    forall d, e ensures OneChannelEach(s', d, e) {
      assert OneChannelEach(s, d, e);
      assert d != c ==> OneChannelEach(s', c, d);
      assert e != c ==> OneChannelEach(s', c, e);
    }
    forall d, e, u, v | u != v && BothIn(s', d, u, v) && BothIn(s', e, u, v) ensures d == e {
      if d != c && e != c {
        assert BothIn(s, d, u, v) && BothIn(s, e, u, v);
      } else if d != c {
        assert BothIn(s, d, u, v);
      } else if e != c {
        assert BothIn(s, e, u, v);
      }
    }
  }

  predicate OwnedFromTheStart(c: ConvId, conv: Conversation, rows: map<MemberKey, Membership>, strict: bool) {
    if conv.kind == Private then
      conv.owner.None?
    else
      && conv.owner.Some?
      && ((!strict && conv.kind == Group && rows == map[])
          || (MemberKey(c, conv.owner.value) in rows && rows[MemberKey(c, conv.owner.value)].role == Owner))
  }

  lemma NewConversationIsLocal(s: Db, c: ConvId, conv: Conversation, rows: map<MemberKey, Membership>, strict: bool)
    requires (forall k | k in s.members :: RowHasConversation(s, k)) && c !in s.convs
    requires conv.memberCount == |rows.Keys|
    requires forall k | k in rows :: k.conv == c && (rows[k].role == Owner ==> conv.owner == Some(k.user))
    requires OwnedFromTheStart(c, conv, rows, strict)
    ensures OneConversation(s, NewConversation(s, c, conv, rows), c, strict)
    ensures forall k | k in s.members :: k.conv != c
  {
    var s' := NewConversation(s, c, conv, rows);
    forall k | k in s.members ensures k.conv != c {
      assert RowHasConversation(s, k);
    }
    NothingBefore(s, c);
    RosterGrows(s, s', c, rows.Keys);
    NewRowsBelong(s, c, conv, rows, strict);
    hide RowHasConversation, ConversationAgrees, OwnedFromTheStart;
  }

  lemma NewRowsBelong(s: Db, c: ConvId, conv: Conversation, rows: map<MemberKey, Membership>, strict: bool)
    requires forall k | k in s.members :: k.conv != c
    requires conv.memberCount == |rows.Keys| == |NewConversation(s, c, conv, rows).Roster(c)|
    requires forall k | k in rows :: k.conv == c && (rows[k].role == Owner ==> conv.owner == Some(k.user))
    requires OwnedFromTheStart(c, conv, rows, strict)
    ensures
      var s' := NewConversation(s, c, conv, rows);
      ConversationAgrees(s', c, strict) && forall k | k in s'.members && k.conv == c :: RowHasConversation(s', k)
  {
  }

  lemma NothingBefore(s: Db, c: ConvId)
    requires forall k | k in s.members :: k.conv != c
    ensures s.Roster(c) == {}
  {
  }

  /** A brand-new conversation with its first rows. */
  lemma NewConversationKeepsCoherent(s: Db, c: ConvId, conv: Conversation, rows: map<MemberKey, Membership>, strict: bool)
    requires Coherent(s, strict) && c !in s.convs
    requires conv.memberCount == |rows.Keys|
    requires forall k | k in rows :: k.conv == c && (rows[k].role == Owner ==> conv.owner == Some(k.user))
    requires OwnedFromTheStart(c, conv, rows, strict)
    requires conv.kind == Channel && conv.dissolvedAt.None? ==> !HasChannel(s, conv.owner.value)
    requires conv.kind == Private ==>
               forall d, u, v | u != v && BothIn(s, d, u, v) :: MemberKey(c, u) !in rows || MemberKey(c, v) !in rows
    ensures Coherent(NewConversation(s, c, conv, rows), strict)
  {
    var s' := NewConversation(s, c, conv, rows);
    NewConversationIsLocal(s, c, conv, rows, strict);
    assert forall d | d != c :: OneChannelEach(s', c, d);
    OneConversationKeepsCoherent(s, s', c, strict);
  }

  lemma RefusedGroupKeepsCoherent(s: Db, c: ConvId, owner: UserId)
    requires Coherent(s, false) && c !in s.convs
    ensures Coherent(NewConversation(s, c, Conversation(Group, Some(owner), true, 0, None, None), map[]), false)
  {
    hide Coherent, NewConversation;
    NewConversationKeepsCoherent(s, c, Conversation(Group, Some(owner), true, 0, None, None), map[], false);
  }

  lemma FullGroupKeepsCoherent(s: Db, c: ConvId, owner: UserId, others: set<UserId>, strict: bool)
    requires Coherent(s, strict) && c !in s.convs && owner !in others
    ensures Coherent(NewConversation(s, c, Conversation(Group, Some(owner), true, 1 + |others|, None, None),
                                     MemberRows(c, others) + OwnerRow(c, owner)), strict)
  {
    hide Coherent, NewConversation;
    var rows := MemberRows(c, others) + OwnerRow(c, owner);
    MemberRowsSize(c, others);
    assert rows.Keys == MemberRows(c, others).Keys + {MemberKey(c, owner)};
    NewConversationKeepsCoherent(s, c, Conversation(Group, Some(owner), true, 1 + |others|, None, None), rows, strict);
  }

  lemma CreateGroupKeepsCoherent(s: Db, c: ConvId, owner: UserId, memberIds: seq<UserId>, strict: bool)
    requires Coherent(s, strict) && c !in s.convs && (strict ==> !RepeatsOther(memberIds, owner))
    ensures Coherent(CreateGroup(s, c, owner, memberIds), strict)
  {
    hide Coherent, NewConversation, RepeatsOther;
    if RepeatsOther(memberIds, owner) {
      RefusedGroupKeepsCoherent(s, c, owner);
    } else {
      FullGroupKeepsCoherent(s, c, owner, Ids(memberIds) - {owner}, strict);
    }
  }

  lemma {:induction false} MemberRowsSize(c: ConvId, users: set<UserId>)
    ensures |MemberRows(c, users).Keys| == |users|
  {
    if users != {} {
      var u :| u in users;
      MemberRowsSize(c, users - {u});
      assert MemberRows(c, users).Keys == MemberRows(c, users - {u}).Keys + {MemberKey(c, u)};
    }
  }

  /** The parts of `Coherent`, one at a time. */
  lemma CoherentParts(s: Db, strict: bool, k: MemberKey, c: ConvId, d: ConvId)
    requires Coherent(s, strict)
    ensures k in s.members ==> RowHasConversation(s, k)
    ensures c in s.convs ==> ConversationAgrees(s, c, strict)
    ensures OneChannelEach(s, c, d)
  {
  }

  lemma AddRowsKeepsCoherent(s: Db, c: ConvId, operator: UserId, added: set<UserId>, strict: bool)
    requires Coherent(s, strict) && IsOwner(s, c, operator) && forall u | u in added :: !s.IsMember(c, u)
    ensures Coherent(SetCount(s.(members := s.members + MemberRows(c, added)), c, |s.Roster(c)| + |added|), strict)
  {
    hide Coherent;
    var s' := SetCount(s.(members := s.members + MemberRows(c, added)), c, |s.Roster(c)| + |added|);
    assert MemberKey(c, operator) in s.Roster(c);
    CoherentParts(s, strict, MemberKey(c, operator), c, c);
    MemberRowsSize(c, added);
    RosterGrows(s, s', c, MemberRows(c, added).Keys);
    forall k | k in s'.members && k.conv == c ensures RowHasConversation(s', k) {
      CoherentParts(s, strict, k, c, c);
    }
    forall d | d != c ensures OneChannelEach(s', c, d) {
      CoherentParts(s, strict, MemberKey(c, operator), c, d);
    }
    OneConversationKeepsCoherent(s, s', c, strict);
  }

  lemma AddMembersKeepsCoherent(s: Db, c: ConvId, memberIds: seq<UserId>, operator: UserId, strict: bool)
    requires Coherent(s, strict)
    ensures Coherent(AddMembers(s, c, memberIds, operator), strict)
  {
    hide Coherent, SetCount, IsOwner, RepeatsNewcomer, MemberRows;
    var added := Newcomers(s, c, memberIds);
    if AddMembersError(s, c, memberIds, operator).None? && added != {} {
      AddRowsKeepsCoherent(s, c, operator, added, strict);
    }
  }

  /** A member row that is not the owner's goes away, and the count follows. */
  lemma DropMemberKeepsCoherent(s: Db, s': Db, c: ConvId, u: UserId, strict: bool)
    requires Coherent(s, strict) && s.IsMember(c, u) && !IsOwner(s, c, u)
    requires c in s.convs
    requires s' == s.(members := s.members - {MemberKey(c, u)},
                      convs := s.convs[c := s.convs[c].(memberCount := s.convs[c].memberCount - 1)])
    ensures Coherent(s', strict)
  {
    assert ConversationAgrees(s, c, strict);
    RosterShrinks(s, s', c, MemberKey(c, u));
    forall k | k in s'.members && k.conv == c ensures RowHasConversation(s', k) {
      assert RowHasConversation(s, k);
    }
    forall d | d != c ensures OneChannelEach(s', c, d) {
      assert OneChannelEach(s, c, d);
    }
    assert forall a, b :: BothIn(s', c, a, b) ==> BothIn(s, c, a, b);
    OneConversationKeepsCoherent(s, s', c, strict);
  }

  lemma RemoveMemberKeepsCoherent(s: Db, c: ConvId, target: UserId, operator: UserId, isAdmin: bool, strict: bool)
    requires Coherent(s, strict)
    ensures Coherent(RemoveMember(s, c, target, operator, isAdmin), strict)
  {
    var s' := RemoveMember(s, c, target, operator, isAdmin);
    var s1 := s.(members := s.members - {MemberKey(c, target)});
    if RemoveMemberError(s, c, target, operator, isAdmin).None? {
      if s.IsMember(c, target) {
        assert RowHasConversation(s, MemberKey(c, target));
        assert ConversationAgrees(s, c, strict);
        RosterShrinks(s, s1, c, MemberKey(c, target));
        DropMemberKeepsCoherent(s, s', c, target, strict);
      } else {
        assert s1.members == s.members;
        if c in s.convs {
          assert ConversationAgrees(s, c, strict);
          assert s1 == s;
        }
        SameRolesKeepsCoherent(s, s', strict);
      }
    }
  }

  lemma TransferKeepsCoherent(s: Db, c: ConvId, current: UserId, successor: UserId, strict: bool)
    requires Coherent(s, strict)
    ensures Coherent(TransferOwnership(s, c, current, successor), strict)
  {
    var s' := TransferOwnership(s, c, current, successor);
    if TransferError(s, c, current, successor).None? {
      assert ConversationAgrees(s, c, strict);
      assert s'.Roster(c) == s.Roster(c);
      forall k | k in s'.members && k.conv == c ensures RowHasConversation(s', k) {
        assert RowHasConversation(s, k);
      }
      OneConversationKeepsCoherent(s, s', c, strict);
    }
  }

  lemma CreateChannelKeepsCoherent(s: Db, c: ConvId, owner: UserId, strict: bool)
    requires Coherent(s, strict) && c !in s.convs
    ensures Coherent(CreateChannel(s, c, owner), strict)
  {
    hide Coherent, NewConversation;
    if !HasChannel(s, owner) {
      assert OwnerRow(c, owner).Keys == {MemberKey(c, owner)};
      NewConversationKeepsCoherent(s, c, Conversation(Channel, Some(owner), true, 1, None, None), OwnerRow(c, owner), strict);
    }
  }

  lemma SubscribeKeepsCoherent(s: Db, c: ConvId, u: UserId, strict: bool)
    requires Coherent(s, strict)
    ensures Coherent(Subscribe(s, c, u), strict)
  {
    var s' := Subscribe(s, c, u);
    if SubscribeError(s, c).None? && !s.IsMember(c, u) {
      assert ConversationAgrees(s, c, strict);
      RosterGrows(s, s', c, {MemberKey(c, u)});
      forall k | k in s'.members && k.conv == c ensures RowHasConversation(s', k) {
        if k in s.members {
          assert RowHasConversation(s, k);
        }
      }
      forall d | d != c ensures OneChannelEach(s', c, d) {
        assert OneChannelEach(s, c, d);
      }
      OneConversationKeepsCoherent(s, s', c, strict);
    }
  }

  lemma UnsubscribeKeepsCoherent(s: Db, c: ConvId, u: UserId, strict: bool)
    requires Coherent(s, strict)
    ensures Coherent(Unsubscribe(s, c, u), strict)
  {
    if UnsubscribeError(s, c, u).None? && s.IsMember(c, u) {
      assert RowHasConversation(s, MemberKey(c, u));
      DropMemberKeepsCoherent(s, Unsubscribe(s, c, u), c, u, strict);
    }
  }

  lemma OpenPrivateKeepsCoherent(s: Db, c: ConvId, u: UserId, v: UserId, peerActive: bool, strict: bool)
    requires Coherent(s, strict) && c !in s.convs
    ensures Coherent(OpenPrivate(s, c, u, v, peerActive), strict)
  {
    hide Coherent, NewConversation;
    if peerActive && SharedPrivate(s, u, v) == {} && u == v {
      NewConversationKeepsCoherent(s, c, Conversation(Private, None, true, 0, None, None), map[], strict);
    } else if peerActive && SharedPrivate(s, u, v) == {} {
      MemberRowsSize(c, {u, v});
      forall d, a, b | a != b && BothIn(s, d, a, b)
        ensures MemberKey(c, a) !in MemberRows(c, {u, v}) || MemberKey(c, b) !in MemberRows(c, {u, v})
      {
        assert d !in SharedPrivate(s, u, v);
      }
      NewConversationKeepsCoherent(s, c, Conversation(Private, None, true, 2, None, None), MemberRows(c, {u, v}), strict);
    }
  }

  /** A createGroup whose member rows the unique index refuses. */
  predicate RefusedRows(op: Op) {
    op.OpCreateGroup? && RepeatsOther(op.memberIds, op.owner)
  }

  predicate NoRefusedRows(ops: seq<Op>) {
    forall op | op in ops :: !RefusedRows(op)
  }

  lemma RolesAreKept(cfg: Config, s: Db, op: Op)
    requires KeepsRoles(op)
    ensures SameRoles(s, Step(cfg, s, op))
  {
    hide SameRoles, Step;
    if op.OpMarkAsRead? || op.OpMarkMessagesRead? {
      ReadStepsKeepRoles(cfg, s, op);
    } else if op.OpMarkDestroyed? || op.OpManualDestroy? || op.OpAck? || op.OpSweep? {
      PurgeStepsKeepRoles(cfg, s, op);
    } else if op.OpDissolveGroup? || op.OpOwnerDissolve? || op.OpDissolveOnAccountDelete? || op.OpSetVisibility? {
      DissolveStepsKeepRoles(cfg, s, op);
    } else {
      CopyStepsKeepRoles(cfg, s, op);
    }
  }

  lemma StepKeepsCoherent(cfg: Config, s: Db, op: Op, strict: bool)
    requires Coherent(s, strict) && Enabled(s, op) && (strict ==> !RefusedRows(op))
    ensures Coherent(Step(cfg, s, op), strict)
  {
    hide Coherent, SameRoles;
    if KeepsRoles(op) {
      RolesAreKept(cfg, s, op);
      SameRolesKeepsCoherent(s, Step(cfg, s, op), strict);
    } else {
      match op
      case OpCreateGroup(c, owner, memberIds) => CreateGroupKeepsCoherent(s, c, owner, memberIds, strict);
      case OpAddMembers(c, memberIds, operator) => AddMembersKeepsCoherent(s, c, memberIds, operator, strict);
      case OpRemoveMember(c, u, operator, isAdmin) => RemoveMemberKeepsCoherent(s, c, u, operator, isAdmin, strict);
      case OpTransferOwnership(c, current, successor) => TransferKeepsCoherent(s, c, current, successor, strict);
      case OpCreateChannel(c, owner) => CreateChannelKeepsCoherent(s, c, owner, strict);
      case OpSubscribe(c, u) => SubscribeKeepsCoherent(s, c, u, strict);
      case OpUnsubscribe(c, u) => UnsubscribeKeepsCoherent(s, c, u, strict);
      case OpOpenPrivate(c, u, v, peerActive) => OpenPrivateKeepsCoherent(s, c, u, v, peerActive, strict);
    }
  }

  lemma {:induction false} RunKeepsCoherent(cfg: Config, s: Db, ops: seq<Op>, strict: bool)
    requires Coherent(s, strict) && Run(cfg, s, ops) && (strict ==> NoRefusedRows(ops))
    ensures Coherent(Exec(cfg, s, ops), strict)
    decreases |ops|
  {
    hide Coherent, Step, Enabled;
    if ops != [] {
      StepKeepsCoherent(cfg, s, ops[0], strict);
      RunKeepsCoherent(cfg, Step(cfg, s, ops[0]), ops[1..], strict);
    }
  }

  /** The member rows of `c` that carry the owner role. */
  function OwnerRows(s: Db, c: ConvId): set<MemberKey> {
    set k | k in s.Roster(c) && s.members[k].role == Owner
  }

  function OwnersOwn(s: Db, c: ConvId): set<MemberKey>
    requires c in s.convs
  {
    match s.convs[c].owner
    case Some(u) => {MemberKey(c, u)}
    case None => {}
  }

  lemma OwnerRowsAgree(s: Db, c: ConvId, strict: bool)
    requires Coherent(s, strict) && c in s.convs
    ensures OwnerRows(s, c) == (if s.Roster(c) == {} then {} else OwnersOwn(s, c))
    ensures strict && s.convs[c].kind != Private ==> s.Roster(c) != {}
    ensures s.convs[c].kind == Channel ==> s.Roster(c) != {}
  {
    assert ConversationAgrees(s, c, strict);
    assert forall k | k in OwnerRows(s, c) :: RowHasConversation(s, k);
    if s.convs[c].owner.Some? && IsOwner(s, c, s.convs[c].owner.value) {
      assert MemberKey(c, s.convs[c].owner.value) in s.Roster(c);
    }
  }

  /**
   * In every reachable state: a group or channel with member rows has exactly one owner row,
   * its `owner_id`'s, and only a group can be without rows; a private conversation has no
   * owner; the stored count is the number of rows; nobody owns two undissolved channels; no
   * two people share two private conversations.
   */
  lemma OwnershipAndCounts(cfg: Config, s: Db)
    requires Reachable(cfg, s)
    ensures forall c | c in s.convs ::
              && s.convs[c].memberCount == |s.Roster(c)|
              && (s.convs[c].kind != Private <==> s.convs[c].owner.Some?)
              && OwnerRows(s, c) == (if s.Roster(c) == {} then {} else OwnersOwn(s, c))
              && (s.convs[c].kind == Channel ==> s.Roster(c) != {})
    ensures forall k | k in s.members :: k.conv in s.convs
    ensures forall c, d | LiveChannel(s, c) && LiveChannel(s, d) && s.convs[c].owner == s.convs[d].owner :: c == d
    ensures forall u, v | u != v :: |SharedPrivate(s, u, v)| <= 1
  {
    ReachableIsCoherent(cfg, s);
    hide Reachable;
    forall c | c in s.convs
      ensures s.convs[c].memberCount == |s.Roster(c)|
      ensures OwnerRows(s, c) == (if s.Roster(c) == {} then {} else OwnersOwn(s, c))
      ensures s.convs[c].kind == Channel ==> s.Roster(c) != {}
      ensures s.convs[c].kind != Private <==> s.convs[c].owner.Some?
    {
      assert ConversationAgrees(s, c, false);
      OwnerRowsAgree(s, c, false);
    }
    forall k | k in s.members ensures k.conv in s.convs {
      assert RowHasConversation(s, k);
    }
    forall c, d | LiveChannel(s, c) && LiveChannel(s, d) && s.convs[c].owner == s.convs[d].owner ensures c == d {
      assert OneChannelEach(s, c, d);
    }
    forall u, v | u != v ensures |SharedPrivate(s, u, v)| <= 1 {
      OnePrivateEach(s, u, v);
    }
  }

  lemma ReachableIsCoherent(cfg: Config, s: Db)
    requires Reachable(cfg, s)
    ensures Coherent(s, false)
  {
    var s0: Db, ops: seq<Op> :| Initial(s0) && Run(cfg, s0, ops) && s == Exec(cfg, s0, ops);
    RunKeepsCoherent(cfg, s0, ops, false);
  }

  lemma OnePrivateEach(s: Db, u: UserId, v: UserId)
    requires Coherent(s, false) && u != v
    ensures |SharedPrivate(s, u, v)| <= 1
  {
    var shared := SharedPrivate(s, u, v);
    if shared != {} {
      var c :| c in shared;
      assert forall d | d in shared :: BothIn(s, d, u, v);
      assert shared == {c};
    }
  }

  /** Every group and channel has its one owner row, as long as no createGroup list repeats somebody. */
  lemma OneOwnerEach(cfg: Config, s0: Db, ops: seq<Op>, c: ConvId)
    requires Initial(s0) && Run(cfg, s0, ops) && NoRefusedRows(ops)
    requires c in Exec(cfg, s0, ops).convs && Exec(cfg, s0, ops).convs[c].kind != Private
    ensures
      var s := Exec(cfg, s0, ops);
      s.convs[c].owner.Some? && OwnerRows(s, c) == {MemberKey(c, s.convs[c].owner.value)}
  {
    RunKeepsCoherent(cfg, s0, ops, true);
    assert ConversationAgrees(Exec(cfg, s0, ops), c, true);
    OwnerRowsAgree(Exec(cfg, s0, ops), c, true);
  }

  lemma FirstRows(s: Db, c: ConvId, owner: UserId, memberIds: seq<UserId>)
    requires forall k | k in s.members :: k.conv != c
    ensures OwnerRows(CreateGroup(s, c, owner, memberIds), c)
            == (if RepeatsOther(memberIds, owner) then {} else {MemberKey(c, owner)})
  {
    hide RepeatsOther;
  }

  /** And the condition is exact: a createGroup leaves a group without an owner row iff its list repeats somebody. */
  lemma RepeatsLeaveNoOwner(cfg: Config, s: Db, c: ConvId, owner: UserId, memberIds: seq<UserId>)
    requires Reachable(cfg, s) && c !in s.convs
    ensures
      var s' := Step(cfg, s, OpCreateGroup(c, owner, memberIds));
      && (OwnerRows(s', c) == {} <==> RepeatsOther(memberIds, owner))
      && (OwnerRows(s', c) == {MemberKey(c, owner)} <==> !RepeatsOther(memberIds, owner))
  {
    OwnershipAndCounts(cfg, s);
    hide Reachable, RepeatsOther;
    assert Step(cfg, s, OpCreateGroup(c, owner, memberIds)) == CreateGroup(s, c, owner, memberIds);
    hide Step;
    FirstRows(s, c, owner, memberIds);
  }
}
