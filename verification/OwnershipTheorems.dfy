/** Who owns a group after transfers, over whole runs, and what a former owner can still do. */
module OwnershipTheorems {
  import opened Prelude
  import opened ChatDb
  import opened ConversationSpec
  import opened Runs
  import opened BurnTheorems
  import opened MembershipTheorems

  /** `u` owns `c`, by the conversation's own column and by the member row. */
  predicate OwnedBy(s: Db, c: ConvId, u: UserId) {
    c in s.convs && s.convs[c].owner == Some(u) && IsOwner(s, c, u)
  }

  /** An accepted transfer of `c`. */
  predicate Transfers(s: Db, op: Op, c: ConvId) {
    op.OpTransferOwnership? && op.conv == c && TransferError(s, c, op.current, op.successor).None?
  }

  /** The successor of the last accepted transfer of `c` along the run, or else `u`. */
  function Heir(cfg: Config, s: Db, ops: seq<Op>, c: ConvId, u: UserId): UserId
    decreases |ops|
  {
    if ops == [] then u
    else Heir(cfg, Step(cfg, s, ops[0]), ops[1..], c, if Transfers(s, ops[0], c) then ops[0].successor else u)
  }

  // ----- one step -----

  lemma TransferStep(s: Db, d: ConvId, current: UserId, successor: UserId, c: ConvId, u: UserId)
    requires OwnedBy(s, c, u)
    ensures
      var s' := TransferOwnership(s, d, current, successor);
      OwnedBy(s', c, if d == c && TransferError(s, c, current, successor).None? then successor else u)
  {
  }

  lemma NewConversationStep(s: Db, d: ConvId, conv: Conversation, rows: map<MemberKey, Membership>, c: ConvId, u: UserId)
    requires OwnedBy(s, c, u) && d !in s.convs && forall k | k in rows :: k.conv == d
    ensures OwnedBy(NewConversation(s, d, conv, rows), c, u)
  {
  }

  lemma FoundingStep(cfg: Config, s: Db, op: Op, c: ConvId, u: UserId)
    requires OwnedBy(s, c, u) && Enabled(s, op) && (op.OpCreateGroup? || op.OpCreateChannel? || op.OpOpenPrivate?)
    ensures OwnedBy(Step(cfg, s, op), c, u)
  {
    hide OwnedBy, NewConversation, RepeatsOther, HasChannel, SharedPrivate;
    if op.OpCreateGroup? {
      var others := Ids(op.memberIds) - {op.owner};
      NewConversationStep(s, op.conv, Conversation(Group, Some(op.owner), true, 0, None, None), map[], c, u);
      NewConversationStep(s, op.conv, Conversation(Group, Some(op.owner), true, 1 + |others|, None, None),
                          MemberRows(op.conv, others) + OwnerRow(op.conv, op.owner), c, u);
    } else if op.OpCreateChannel? {
      NewConversationStep(s, op.conv, Conversation(Channel, Some(op.owner), true, 1, None, None), OwnerRow(op.conv, op.owner), c, u);
    } else {
      NewConversationStep(s, op.conv, Conversation(Private, None, true, 0, None, None), map[], c, u);
      NewConversationStep(s, op.conv, Conversation(Private, None, true, 2, None, None), MemberRows(op.conv, {op.user, op.peer}), c, u);
    }
  }

  /** Nobody is added over an owner's row, and no owner's row is removed. */
  lemma MemberStep(cfg: Config, s: Db, op: Op, c: ConvId, u: UserId)
    requires OwnedBy(s, c, u) && (op.OpAddMembers? || op.OpRemoveMember? || op.OpSubscribe? || op.OpUnsubscribe?)
    ensures OwnedBy(Step(cfg, s, op), c, u)
  {
    hide RepeatsNewcomer;
    if op.OpAddMembers? {
      AddStep(s, op.conv, op.memberIds, op.operator, c, u);
    }
    hide AddMembers;
  }

  lemma AddStep(s: Db, d: ConvId, memberIds: seq<UserId>, operator: UserId, c: ConvId, u: UserId)
    requires OwnedBy(s, c, u)
    ensures OwnedBy(AddMembers(s, d, memberIds, operator), c, u)
  {
    hide RepeatsNewcomer;
    var added := Newcomers(s, d, memberIds);
    assert MemberKey(c, u) !in MemberRows(d, added);
  }

  lemma SameRolesKeepOwner(s: Db, s': Db, c: ConvId, u: UserId)
    requires OwnedBy(s, c, u) && SameRoles(s, s')
    ensures OwnedBy(s', c, u)
  {
  }

  lemma StepOwner(cfg: Config, s: Db, op: Op, c: ConvId, u: UserId)
    requires OwnedBy(s, c, u) && Enabled(s, op)
    ensures OwnedBy(Step(cfg, s, op), c, if Transfers(s, op, c) then op.successor else u)
  {
    hide OwnedBy, Enabled, SameRoles, TransferError;
    if op.OpTransferOwnership? {
      TransferStep(s, op.conv, op.current, op.successor, c, u);
    } else if op.OpCreateGroup? || op.OpCreateChannel? || op.OpOpenPrivate? {
      FoundingStep(cfg, s, op, c, u);
    } else if KeepsRoles(op) {
      RolesAreKept(cfg, s, op);
      SameRolesKeepOwner(s, Step(cfg, s, op), c, u);
    } else {
      MemberStep(cfg, s, op, c, u);
    }
    hide Step;
  }

  // ----- whole runs -----

  lemma {:induction false} OwnerIsTheHeir(cfg: Config, s: Db, ops: seq<Op>, c: ConvId, u: UserId)
    requires OwnedBy(s, c, u) && Run(cfg, s, ops)
    ensures OwnedBy(Exec(cfg, s, ops), c, Heir(cfg, s, ops, c, u))
    decreases |ops|
  {
    hide OwnedBy, Step, Enabled, TransferError;
    if ops != [] {
      StepOwner(cfg, s, ops[0], c, u);
      OwnerIsTheHeir(cfg, Step(cfg, s, ops[0]), ops[1..], c, if Transfers(s, ops[0], c) then ops[0].successor else u);
    }
  }

  /**
   * Over every run the owner of a group or channel is exactly the successor of the last accepted
   * transfer: nobody else holds the owner's role, and the role never gets lost.
   */
  lemma OwnerIsExactlyTheHeir(cfg: Config, s: Db, ops: seq<Op>, c: ConvId, u: UserId, v: UserId)
    requires Reachable(cfg, s) && Run(cfg, s, ops) && OwnedBy(s, c, u)
    ensures IsOwner(Exec(cfg, s, ops), c, v) <==> v == Heir(cfg, s, ops, c, u)
  {
    hide Reachable, Run, Exec, Heir, Coherent;
    OwnerIsTheHeir(cfg, s, ops, c, u);
    ReachableExtends(cfg, s, ops);
    ReachableIsCoherent(cfg, Exec(cfg, s, ops));
    CoherentParts(Exec(cfg, s, ops), false, MemberKey(c, v), c, c);
  }

  predicate TransfersTo(op: Op, c: ConvId, u: UserId) {
    op.OpTransferOwnership? && op.conv == c && op.successor == u
  }

  lemma {:induction false} HeirNeedsTransfer(cfg: Config, s: Db, ops: seq<Op>, c: ConvId, u: UserId, v: UserId)
    requires u != v && forall op | op in ops :: !TransfersTo(op, c, v)
    ensures Heir(cfg, s, ops, c, u) != v
    decreases |ops|
  {
    hide Step, TransferError;
    if ops != [] {
      assert !TransfersTo(ops[0], c, v);
      HeirNeedsTransfer(cfg, Step(cfg, s, ops[0]), ops[1..], c, if Transfers(s, ops[0], c) then ops[0].successor else u, v);
    }
  }

  /** An accepted transfer leaves one owner row, the successor's, and the old owner a plain member. */
  lemma TransferMovesTheRole(cfg: Config, s: Db, c: ConvId, current: UserId, successor: UserId)
    requires Reachable(cfg, s) && TransferError(s, c, current, successor).None?
    ensures
      var s' := Step(cfg, s, OpTransferOwnership(c, current, successor));
      && OwnedBy(s', c, successor) && OwnerRows(s', c) == {MemberKey(c, successor)}
      && s'.IsMember(c, current) && s'.members[MemberKey(c, current)].role == Member
      && s'.convs[c].memberCount == s.convs[c].memberCount
  {
    hide Reachable, Coherent, OwnerRows;
    var s' := Step(cfg, s, OpTransferOwnership(c, current, successor));
    ReachableStep(cfg, s, OpTransferOwnership(c, current, successor));
    ReachableIsCoherent(cfg, s');
    assert s' == TransferOwnership(s, c, current, successor);
    OwnerRowsAgree(s', c, false);
    assert MemberKey(c, successor) in s'.Roster(c);
  }

  /** What only the owner may do is refused. */
  predicate HasNoSay(s: Db, c: ConvId, u: UserId, memberIds: seq<UserId>, kind: ConversationKind, successor: UserId) {
    && !IsOwner(s, c, u)
    && AddMembersError(s, c, memberIds, u) == Some(Forbidden)
    && OwnerDissolveError(s, kind, c, u).Some?
    && TransferError(s, c, u, successor).Some?
  }

  /**
   * The former owner stays out: in every continuation of the transfer in which nobody hands the
   * group back to them, they are not the owner, and adding members, dissolving and transferring
   * are refused to them.
   */
  lemma FormerOwnerHasNoSay(cfg: Config, s: Db, c: ConvId, current: UserId, successor: UserId, ops: seq<Op>,
                            memberIds: seq<UserId>, kind: ConversationKind, other: UserId)
    requires Reachable(cfg, s) && TransferError(s, c, current, successor).None?
    requires Run(cfg, Step(cfg, s, OpTransferOwnership(c, current, successor)), ops)
    requires forall op | op in ops :: !TransfersTo(op, c, current)
    ensures HasNoSay(Exec(cfg, Step(cfg, s, OpTransferOwnership(c, current, successor)), ops), c, current, memberIds, kind, other)
  {
    var op := OpTransferOwnership(c, current, successor);
    var s1 := Step(cfg, s, op);
    assert current != successor;
    TransferMovesTheRole(cfg, s, c, current, successor);
    ReachableStep(cfg, s, op);
    hide Reachable, Step, Run, Exec, Heir, TransfersTo;
    OwnerIsTheHeir(cfg, s1, ops, c, successor);
    OwnerIsExactlyTheHeir(cfg, s1, ops, c, successor, current);
    HeirNeedsTransfer(cfg, s1, ops, c, successor, current);
  }
}
