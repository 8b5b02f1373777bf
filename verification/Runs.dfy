/**
 * Runs of the chat backend: requests and scheduler ticks, one atomic step each, in any order.
 *
 * Choices the database makes (fresh ids, the order of rows with equal sort keys, which
 * transactions of a cascade fail) are part of the operation; `Enabled` says which are possible.
 */
module Runs {
  import opened Prelude
  import opened Query
  import opened ChatDb
  import opened BurnSpec
  import opened ConversationSpec

  datatype Op =
    | OpElapse(dt: nat)
    | OpSend(id: MsgId, draft: Draft)
    | OpReveal(id: MsgId, user: UserId, duration: Option<int>)
    | OpConsume(id: MsgId, user: UserId)
    | OpEdit(id: MsgId, user: UserId, text: string)
    | OpRecall(id: MsgId, user: UserId)
    | OpPatchOriginal(id: MsgId, user: UserId, url: string)
    | OpMarkAsRead(conv: ConvId, user: UserId, upTo: Option<MsgId>, newest: seq<MsgId>)
    | OpMarkMessagesRead(conv: ConvId, user: UserId, ids: seq<MsgId>, newest: seq<MsgId>)
    | OpMarkDestroyed(rows1: seq<MsgId>, rows2: seq<MsgId>)
    | OpManualDestroy(id: MsgId)
    | OpAck(conv: ConvId, user: UserId, ids: seq<MsgId>)
    | OpSweep(rows: seq<MsgId>)
    | OpCreateGroup(conv: ConvId, owner: UserId, memberIds: seq<UserId>)
    | OpAddMembers(conv: ConvId, memberIds: seq<UserId>, operator: UserId)
    | OpRemoveMember(conv: ConvId, user: UserId, operator: UserId, isAdmin: bool)
    | OpTransferOwnership(conv: ConvId, current: UserId, successor: UserId)
    | OpDissolveGroup(conv: ConvId)
    | OpOwnerDissolve(kind: ConversationKind, conv: ConvId, operator: UserId)
    | OpDissolveOnAccountDelete(owner: UserId, operator: UserId, failing: set<ConvId>)
    | OpCreateChannel(conv: ConvId, owner: UserId)
    | OpSetVisibility(conv: ConvId, user: UserId, isPublic: bool)
    | OpSubscribe(conv: ConvId, user: UserId)
    | OpUnsubscribe(conv: ConvId, user: UserId)
    | OpOpenPrivate(conv: ConvId, user: UserId, peer: UserId, peerActive: bool)

  predicate FreshConv(s: Db, c: ConvId) {
    c !in s.convs
  }

  ghost predicate Enabled(s: Db, op: Op) {
    match op
    case OpSend(id, _) => id !in s.messages && id !in s.tombstones
    case OpMarkAsRead(c, u, upTo, newest) => Page(newest, NewestKey(s, c, ReadBound(s, c, upTo)), 1)
    case OpMarkMessagesRead(c, u, ids, newest) => Page(newest, NewestListedKey(s, c, ids), 1)
    case OpMarkDestroyed(rows1, rows2) =>
      Page(rows1, R1Key(s), MARK_BATCH) && Page(rows2, R2Key(AfterR1(s, rows1)), MARK_BATCH)
    case OpSweep(rows) => Page(rows, SweepKey(s), SWEEP_BATCH)
    case OpCreateGroup(c, _, _) => FreshConv(s, c)
    case OpOwnerDissolve(kind, _, _) => kind != Private
    case OpCreateChannel(c, _) => FreshConv(s, c)
    case OpOpenPrivate(c, _, _, _) => FreshConv(s, c)
    case _ => true
  }

  function Step(cfg: Config, s: Db, op: Op): Db {
    match op
    case OpElapse(dt) => s.(now := s.now + dt)
    case OpSend(id, draft) => Send(cfg, s, id, draft).0
    case OpReveal(id, u, duration) => Reveal(cfg, s, id, u, duration).0
    case OpConsume(id, u) => Consume(s, id, u).0
    case OpEdit(id, u, text) => Edit(s, id, u, text)
    case OpRecall(id, u) => Recall(s, id, u)
    case OpPatchOriginal(id, u, url) => PatchOriginal(s, id, u, url)
    case OpMarkAsRead(c, u, upTo, newest) => MarkAsRead(s, c, u, upTo, newest)
    case OpMarkMessagesRead(c, u, ids, newest) => MarkMessagesRead(s, c, u, ids, newest).0
    case OpMarkDestroyed(rows1, rows2) => MarkDestroyed(s, rows1, rows2)
    case OpManualDestroy(id) => ManualDestroy(s, id)
    case OpAck(c, u, ids) => Ack(cfg, s, c, u, ids).0
    case OpSweep(rows) => Sweep(cfg, s, rows)
    case OpCreateGroup(c, owner, memberIds) => CreateGroup(s, c, owner, memberIds)
    case OpAddMembers(c, memberIds, operator) => AddMembers(s, c, memberIds, operator)
    case OpRemoveMember(c, u, operator, isAdmin) => RemoveMember(s, c, u, operator, isAdmin)
    case OpTransferOwnership(c, current, successor) => TransferOwnership(s, c, current, successor)
    case OpDissolveGroup(c) => DissolveGroup(s, c)
    case OpOwnerDissolve(kind, c, operator) => OwnerDissolve(s, kind, c, operator)
    case OpDissolveOnAccountDelete(owner, operator, failing) => DissolveOnAccountDelete(s, owner, operator, failing)
    case OpCreateChannel(c, owner) => CreateChannel(s, c, owner)
    case OpSetVisibility(c, u, isPublic) => SetVisibility(s, c, u, isPublic)
    case OpSubscribe(c, u) => Subscribe(s, c, u)
    case OpUnsubscribe(c, u) => Unsubscribe(s, c, u)
    case OpOpenPrivate(c, u, v, peerActive) => OpenPrivate(s, c, u, v, peerActive)
  }

  function Exec(cfg: Config, s: Db, ops: seq<Op>): Db
    decreases |ops|
  {
    if ops == [] then s else Exec(cfg, Step(cfg, s, ops[0]), ops[1..])
  }

  ghost predicate Run(cfg: Config, s: Db, ops: seq<Op>)
    decreases |ops|
  {
    ops != [] ==> Enabled(s, ops[0]) && Run(cfg, Step(cfg, s, ops[0]), ops[1..])
  }

  /** An empty database, at any time of day. */
  predicate Initial(s: Db) {
    s == Db(s.now, map[], map[], {}, map[], map[], map[])
  }

  ghost predicate Reachable(cfg: Config, s: Db) {
    exists s0: Db, ops: seq<Op> :: Initial(s0) && Run(cfg, s0, ops) && s == Exec(cfg, s0, ops)
  }
}
