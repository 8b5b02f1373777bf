/** What group, channel and private-conversation requests do to conversations and member rows. */
module ConversationSpec {
  import opened Prelude
  import opened ChatDb

  const NEW_MEMBER := Membership(Member, None)

  predicate IsOwner(s: Db, c: ConvId, u: UserId) {
    s.IsMember(c, u) && s.members[MemberKey(c, u)].role == Owner
  }

  function MemberRows(c: ConvId, users: set<UserId>): map<MemberKey, Membership> {
    map u | u in users :: MemberKey(c, u) := NEW_MEMBER
  }

  function SetCount(s: Db, c: ConvId, n: int): Db {
    if c in s.convs then s.(convs := s.convs[c := s.convs[c].(memberCount := n)]) else s
  }

  // ----- group.service.ts -----

  function OwnerRow(c: ConvId, owner: UserId): map<MemberKey, Membership> {
    map[MemberKey(c, owner) := Membership(Owner, None)]
  }

  function NewConversation(s: Db, c: ConvId, conv: Conversation, rows: map<MemberKey, Membership>): Db {
    s.(convs := s.convs[c := conv], members := s.members + rows)
  }

  /** Somebody other than the owner is listed twice, which the unique index on member rows refuses. */
  predicate RepeatsOther(memberIds: seq<UserId>, owner: UserId) {
    !Distinct(Without(memberIds, {owner}))
  }

  /**
   * `c` is the fresh UUID. The owner may be listed among the members; the row is written once.
   * The conversation is saved before its member rows, and stays when they are refused.
   */
  function CreateGroup(s: Db, c: ConvId, owner: UserId, memberIds: seq<UserId>): Db {
    if RepeatsOther(memberIds, owner) then
      NewConversation(s, c, Conversation(Group, Some(owner), true, 0, None, None), map[])
    else
      var others := Ids(memberIds) - {owner};
      NewConversation(s, c, Conversation(Group, Some(owner), true, 1 + |others|, None, None),
                      MemberRows(c, others) + OwnerRow(c, owner))
  }

  function Newcomers(s: Db, c: ConvId, memberIds: seq<UserId>): set<UserId> {
    set u | u in memberIds && !s.IsMember(c, u)
  }

  /** A newcomer is listed twice: the one INSERT of all newcomers is refused. */
  predicate RepeatsNewcomer(s: Db, c: ConvId, memberIds: seq<UserId>) {
    !Distinct(Without(memberIds, Users(s, c)))
  }

  function Users(s: Db, c: ConvId): set<UserId> {
    set k | k in s.Roster(c) :: k.user
  }

  function AddMembersError(s: Db, c: ConvId, memberIds: seq<UserId>, operator: UserId): Option<HttpError> {
    if !IsOwner(s, c, operator) then Some(Forbidden)
    else if RepeatsNewcomer(s, c, memberIds) then Some(ServerError)
    else None
  }

  function AddMembers(s: Db, c: ConvId, memberIds: seq<UserId>, operator: UserId): Db {
    var added := Newcomers(s, c, memberIds);
    if AddMembersError(s, c, memberIds, operator).Some? || added == {} then
      s
    else
      SetCount(s.(members := s.members + MemberRows(c, added)), c, |s.Roster(c)| + |added|)
  }

  function RemoveMemberError(s: Db, c: ConvId, target: UserId, operator: UserId, isAdmin: bool): Option<HttpError> {
    if target == operator && !s.IsMember(c, operator) then
      Some(NotFound)
    else if target != operator && !isAdmin && !IsOwner(s, c, operator) then
      Some(Forbidden)
    else if IsOwner(s, c, target) then
      Some(Forbidden)
    else
      None
  }

  function RemoveMember(s: Db, c: ConvId, target: UserId, operator: UserId, isAdmin: bool): Db {
    if RemoveMemberError(s, c, target, operator, isAdmin).Some? then
      s
    else
      var s1 := s.(members := s.members - {MemberKey(c, target)});
      SetCount(s1, c, |s1.Roster(c)|)
  }

  function TransferError(s: Db, c: ConvId, current: UserId, successor: UserId): Option<HttpError> {
    if current == successor then
      Some(BadRequest)
    else if c !in s.convs || s.convs[c].kind != Group then
      Some(NotFound)
    else if s.convs[c].dissolvedAt.Some? then
      Some(BadRequest)
    else if s.convs[c].owner != Some(current) then
      Some(Forbidden)
    else if !s.IsMember(c, successor) then
      Some(BadRequest)
    else if !s.IsMember(c, current) then
      Some(ServerError)
    else
      None
  }

  function WithRole(m: Membership, role: Role): Membership {
    m.(role := role)
  }

  function TransferOwnership(s: Db, c: ConvId, current: UserId, successor: UserId): Db {
    if TransferError(s, c, current, successor).Some? then
      s
    else
      var k0, k1 := MemberKey(c, current), MemberKey(c, successor);
      s.(convs := s.convs[c := s.convs[c].(owner := Some(successor))],
         members := s.members[k0 := WithRole(s.members[k0], Member)][k1 := WithRole(s.members[k1], Owner)])
  }

  /** An administrator dissolves a group: the messages stay for the audit. */
  function DissolveGroup(s: Db, c: ConvId): Db {
    if c !in s.convs || s.convs[c].kind != Group || s.convs[c].dissolvedAt.Some? then s
    else s.(convs := s.convs[c := s.convs[c].(dissolvedAt := Some(s.now))])
  }

  function Dissolved(conv: Conversation, now: Millis, operator: UserId): Conversation {
    conv.(dissolvedAt := Some(now), dissolvedBy := Some(operator))
  }

  /** Dissolving by the owner: every unmarked message of the conversations expires at once. */
  function BurnDown(s: Db, cs: set<ConvId>, operator: UserId): Db
    requires cs <= s.convs.Keys
  {
    s.(convs := (map c | c in s.convs :: if c in cs then Dissolved(s.convs[c], s.now, operator) else s.convs[c]),
       messages := (map id | id in s.messages ::
         var m := s.messages[id];
         if m.conv in cs && !m.isDestroyed then m.(destroyAt := Some(s.now)) else m))
  }

  function OwnerDissolveError(s: Db, kind: ConversationKind, c: ConvId, operator: UserId): Option<HttpError> {
    if c !in s.convs || s.convs[c].kind != kind then
      Some(NotFound)
    else if s.convs[c].dissolvedAt.Some? then
      Some(BadRequest)
    else if s.convs[c].owner != Some(operator) then
      Some(Forbidden)
    else
      None
  }

  /** The group and the channel services run the same transaction. */
  function OwnerDissolve(s: Db, kind: ConversationKind, c: ConvId, operator: UserId): Db {
    if OwnerDissolveError(s, kind, c, operator).Some? then s else BurnDown(s, {c}, operator)
  }

  function OwnedGroups(s: Db, owner: UserId): set<ConvId> {
    set c | c in s.convs && s.convs[c].kind == Group && s.convs[c].owner == Some(owner)
            && s.convs[c].dissolvedAt.None?
  }

  /** `failing` are the groups whose own transaction failed; the cascade skips them. */
  function DissolveOnAccountDelete(s: Db, owner: UserId, operator: UserId, failing: set<ConvId>): Db {
    BurnDown(s, OwnedGroups(s, owner) - failing, operator)
  }

  // ----- channel.service.ts -----

  predicate HasChannel(s: Db, owner: UserId) {
    exists c | c in s.convs ::
      s.convs[c].kind == Channel && s.convs[c].owner == Some(owner) && s.convs[c].dissolvedAt.None?
  }

  function CreateChannel(s: Db, c: ConvId, owner: UserId): Db {
    if HasChannel(s, owner) then
      s
    else
      NewConversation(s, c, Conversation(Channel, Some(owner), true, 1, None, None), OwnerRow(c, owner))
  }

  predicate LiveChannel(s: Db, c: ConvId) {
    c in s.convs && s.convs[c].kind == Channel && s.convs[c].dissolvedAt.None?
  }

  function SetVisibility(s: Db, c: ConvId, u: UserId, isPublic: bool): Db {
    if !LiveChannel(s, c) || s.convs[c].owner != Some(u) then s
    else s.(convs := s.convs[c := s.convs[c].(isPublic := isPublic)])
  }

  function SubscribeError(s: Db, c: ConvId): Option<HttpError> {
    if !LiveChannel(s, c) then Some(NotFound)
    else if !s.convs[c].isPublic then Some(Forbidden)
    else None
  }

  function Subscribe(s: Db, c: ConvId, u: UserId): Db {
    if SubscribeError(s, c).Some? || s.IsMember(c, u) then s
    else SetCount(s.(members := s.members[MemberKey(c, u) := NEW_MEMBER]), c, s.convs[c].memberCount + 1)
  }

  function UnsubscribeError(s: Db, c: ConvId, u: UserId): Option<HttpError> {
    if !LiveChannel(s, c) then Some(NotFound)
    else if s.convs[c].owner == Some(u) then Some(BadRequest)
    else None
  }

  function Unsubscribe(s: Db, c: ConvId, u: UserId): Db {
    if UnsubscribeError(s, c, u).Some? || !s.IsMember(c, u) then s
    else SetCount(s.(members := s.members - {MemberKey(c, u)}), c, s.convs[c].memberCount - 1)
  }

  // ----- conversation.service.ts -----

  function SharedPrivate(s: Db, u: UserId, v: UserId): set<ConvId> {
    set c | c in s.convs && s.convs[c].kind == Private && s.IsMember(c, u) && s.IsMember(c, v)
  }

  /**
   * `peerActive` says the other account exists and is active. A user who opens a conversation
   * with themself is refused the second, equal member row, and the empty conversation stays.
   */
  function OpenPrivate(s: Db, c: ConvId, u: UserId, v: UserId, peerActive: bool): Db {
    if !peerActive || SharedPrivate(s, u, v) != {} then
      s
    else if u == v then
      NewConversation(s, c, Conversation(Private, None, true, 0, None, None), map[])
    else
      NewConversation(s, c, Conversation(Private, None, true, 2, None, None), MemberRows(c, {u, v}))
  }
}
