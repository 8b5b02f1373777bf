/** group.service.ts, channel.service.ts and conversation.service.ts. */
module ConversationServices {
  import opened Prelude
  import opened Query
  import opened ChatDb
  import opened ConversationSpec
  import opened Runs
  import opened Tables
  import ReadTheorems

  class GroupService {
    const db: Database
    const cfg: Config

    constructor (db: Database, cfg: Config)
      ensures this.db == db && this.cfg == cfg
    {
      this.db, this.cfg := db, cfg;
    }

    predicate OwnerOf(c: ConvId, u: UserId)
      reads db
    {
      db.HasMember(c, u) && db.members[MemberKey(c, u)].role == Owner
    }

    // ----- createGroup, addMembers -----

    function NewRows(c: ConvId, users: seq<UserId>, owner: Option<UserId>): map<MemberKey, Membership> {
      map u | u in users :: MemberKey(c, u) := Membership(if owner == Some(u) then Owner else Member, None)
    }

    /** One INSERT of member rows; the unique index refuses it as a whole if somebody is listed twice. */
    method SaveMembers(c: ConvId, users: seq<UserId>, owner: Option<UserId>) returns (saved: bool)
      modifies db`members
      ensures saved <==> Distinct(users)
      ensures db.members == if saved then old(db.members) + NewRows(c, users, owner) else old(db.members)
    {
      saved := Distinct(users);
      if saved {
        db.members := db.members + NewRows(c, users, owner);
      }
    }

    /** `c` is the UUID the insert draws. */
    method CreateGroup(c: ConvId, owner: UserId, memberIds: seq<UserId>) returns (r: Result<ConvId>)
      requires c !in db.convs
      modifies db
      ensures Performs(cfg, old(db.Snapshot()), OpCreateGroup(c, owner, memberIds), db.Snapshot())
      ensures r == if RepeatsOther(memberIds, owner) then Err(ServerError) else Ok(c)
    {
      hide Distinct, NewRows, ConversationSpec.CreateGroup;
      ghost var s := db.Snapshot();
      var others := Without(memberIds, {owner});
      var allMemberIds := [owner] + others;
      OwnerFirst(owner, others);
      GroupRows(s, c, owner, memberIds);
      db.convs := db.convs[c := Conversation(Group, Some(owner), true, 0, None, None)];
      var saved := SaveMembers(c, allMemberIds, Some(owner));
      if !saved {
        return Err(ServerError);
      }
      db.convs := db.convs[c := db.convs[c].(memberCount := |allMemberIds|)];
      return Ok(c);
    }

    lemma OwnerFirst(owner: UserId, others: seq<UserId>)
      requires owner !in Ids(others)
      ensures Distinct([owner] + others) <==> Distinct(others)
    {
      var all := [owner] + others;
      assert owner !in others;
      if Distinct(all) {
        assert others == all[1..];
      }
    }

    lemma GroupRows(s: Db, c: ConvId, owner: UserId, memberIds: seq<UserId>)
      ensures
        var all := [owner] + Without(memberIds, {owner});
        ConversationSpec.CreateGroup(s, c, owner, memberIds) ==
          if RepeatsOther(memberIds, owner) then
            s.(convs := s.convs[c := Conversation(Group, Some(owner), true, 0, None, None)])
          else
            s.(convs := s.convs[c := Conversation(Group, Some(owner), true, |all|, None, None)],
               members := s.members + NewRows(c, all, Some(owner)))
    {
      hide NewRows, MemberRows, OwnerRow, Distinct;
      var others := Without(memberIds, {owner});
      assert s.members + map[] == s.members;
      OwnerAndOthers(c, owner, others);
      if !RepeatsOther(memberIds, owner) {
        DistinctSize(others);
      }
    }

    lemma OwnerAndOthers(c: ConvId, owner: UserId, others: seq<UserId>)
      requires owner !in Ids(others)
      ensures NewRows(c, [owner] + others, Some(owner)) == MemberRows(c, Ids(others)) + OwnerRow(c, owner)
    {
      var a, b := NewRows(c, [owner] + others, Some(owner)), MemberRows(c, Ids(others)) + OwnerRow(c, owner);
      forall k: MemberKey ensures k in a <==> k in b {
        assert k in a <==> k.conv == c && k.user in [owner] + others;
        assert k in MemberRows(c, Ids(others)) <==> k.conv == c && k.user in others;
      }
    }

    lemma PlainRows(c: ConvId, users: seq<UserId>)
      ensures NewRows(c, users, None) == MemberRows(c, Ids(users))
    {
      var a, b := NewRows(c, users, None), MemberRows(c, Ids(users));
      forall k: MemberKey ensures k in a <==> k in b {
        assert k in a <==> k.conv == c && k.user in users;
        assert k in b <==> k.conv == c && k.user in users;
      }
    }

    /** As many user ids as rows. */
    lemma {:induction false} UsersOfRows(rows: set<MemberKey>, c: ConvId)
      requires forall k | k in rows :: k.conv == c
      ensures |set k | k in rows :: k.user| == |rows|
    {
      if rows != {} {
        var k :| k in rows;
        UsersOfRows(rows - {k}, c);
        assert (set x | x in rows :: x.user) == (set x | x in rows - {k} :: x.user) + {k.user};
      }
    }

    method AddMembers(c: ConvId, memberIds: seq<UserId>, operator: UserId) returns (r: Result<nat>)
      modifies db
      ensures Performs(cfg, old(db.Snapshot()), OpAddMembers(c, memberIds, operator), db.Snapshot())
      ensures r.Err? <==> AddMembersError(old(db.Snapshot()), c, memberIds, operator).Some?
      ensures r.Err? ==> AddMembersError(old(db.Snapshot()), c, memberIds, operator) == Some(r.error)
      ensures r.Ok? ==> r.value == |Newcomers(old(db.Snapshot()), c, memberIds)|
    {
      hide Distinct, Newcomers, NewRows, ConversationSpec.AddMembers, Users;
      ghost var s := db.Snapshot();
      AddedRows(s, c, memberIds, operator);
      if !OwnerOf(c, operator) {
        return Err(Forbidden);
      }
      var existingIds := Users(db.Snapshot(), c);
      var newMemberIds := Without(memberIds, existingIds);
      if |newMemberIds| == 0 {
        return Ok(0);
      }
      var saved := SaveMembers(c, newMemberIds, None);
      if !saved {
        return Err(ServerError);
      }
      if c in db.convs {
        db.convs := db.convs[c := db.convs[c].(memberCount := |existingIds| + |newMemberIds|)];
      }
      return Ok(|newMemberIds|);
    }

    lemma NewcomersAreTheRest(s: Db, c: ConvId, memberIds: seq<UserId>)
      ensures Newcomers(s, c, memberIds) == Ids(Without(memberIds, Users(s, c)))
      ensures Without(memberIds, Users(s, c)) == [] <==> Newcomers(s, c, memberIds) == {}
      ensures Without(memberIds, Users(s, c)) == [] ==> !RepeatsNewcomer(s, c, memberIds)
      ensures !RepeatsNewcomer(s, c, memberIds) ==> |Without(memberIds, Users(s, c))| == |Newcomers(s, c, memberIds)|
    {
      var rest := Without(memberIds, Users(s, c));
      forall u ensures u in Users(s, c) <==> s.IsMember(c, u) {
        assert s.IsMember(c, u) ==> MemberKey(c, u) in s.Roster(c);
      }
      assert forall u :: u in memberIds <==> u in Ids(memberIds);
      if rest != [] {
        assert rest[0] in Ids(rest);
      }
      if Distinct(rest) {
        DistinctSize(rest);
      }
    }

    lemma AddedRows(s: Db, c: ConvId, memberIds: seq<UserId>, operator: UserId)
      ensures
        var existing, added := Users(s, c), Without(memberIds, Users(s, c));
        && (added == [] <==> Newcomers(s, c, memberIds) == {})
        && (added == [] ==> !RepeatsNewcomer(s, c, memberIds))
        && (!RepeatsNewcomer(s, c, memberIds) ==> |added| == |Newcomers(s, c, memberIds)|)
        && ConversationSpec.AddMembers(s, c, memberIds, operator) ==
             if AddMembersError(s, c, memberIds, operator).Some? || added == [] then s
             else SetCount(s.(members := s.members + NewRows(c, added, None)), c, |existing| + |added|)
    {
      hide Newcomers, NewRows, MemberRows, RepeatsNewcomer;
      NewcomersAreTheRest(s, c, memberIds);
      UsersOfRows(s.Roster(c), c);
      PlainRows(c, Without(memberIds, Users(s, c)));
    }

    // ----- removeMember, transferOwnership -----

    method RemoveMember(c: ConvId, target: UserId, operator: UserId, isAdmin: bool) returns (r: Result<nat>)
      modifies db
      ensures Performs(cfg, old(db.Snapshot()), OpRemoveMember(c, target, operator, isAdmin), db.Snapshot())
      ensures r.Err? ==> RemoveMemberError(old(db.Snapshot()), c, target, operator, isAdmin) == Some(r.error)
      ensures r.Ok? ==> RemoveMemberError(old(db.Snapshot()), c, target, operator, isAdmin).None? && r.value == |db.Snapshot().Roster(c)|
    {
      if target == operator {
        if !db.HasMember(c, operator) {
          return Err(NotFound);
        }
        if OwnerOf(c, operator) {
          return Err(Forbidden);
        }
      } else if !isAdmin {
        if !OwnerOf(c, operator) {
          return Err(Forbidden);
        }
      }
      if OwnerOf(c, target) {
        return Err(Forbidden);
      }
      db.members := db.members - {MemberKey(c, target)};
      var remaining := |db.Snapshot().Roster(c)|;
      if c in db.convs {
        db.convs := db.convs[c := db.convs[c].(memberCount := remaining)];
      }
      return Ok(remaining);
    }

    /** The three updates are one transaction: a missing row rolls back the ones before it. */
    method TransferOwnership(c: ConvId, current: UserId, successor: UserId) returns (r: Result<UserId>)
      modifies db
      ensures Performs(cfg, old(db.Snapshot()), OpTransferOwnership(c, current, successor), db.Snapshot())
      ensures r == match TransferError(old(db.Snapshot()), c, current, successor) case Some(e) => Err(e) case None => Ok(successor)
    {
      if current == successor {
        return Err(BadRequest);
      }
      if c !in db.convs || db.convs[c].kind != Group {
        return Err(NotFound);
      }
      if db.convs[c].dissolvedAt.Some? {
        return Err(BadRequest);
      }
      if db.convs[c].owner != Some(current) {
        return Err(Forbidden);
      }
      if !db.HasMember(c, successor) {
        return Err(BadRequest);
      }
      var before := db.convs;
      db.convs := db.convs[c := db.convs[c].(owner := Some(successor))];
      if !db.HasMember(c, current) {
        db.convs := before;
        return Err(ServerError);
      }
      db.members := db.members[MemberKey(c, current) := db.members[MemberKey(c, current)].(role := Member)];
      db.members := db.members[MemberKey(c, successor) := db.members[MemberKey(c, successor)].(role := Owner)];
      return Ok(successor);
    }

    // ----- dissolution -----

    method DissolveGroup(c: ConvId) returns (r: Result<Millis>)
      modifies db
      ensures Performs(cfg, old(db.Snapshot()), OpDissolveGroup(c), db.Snapshot())
      ensures r == Err(NotFound) <==> c !in old(db.convs) || old(db.convs)[c].kind != Group
      ensures r == Err(BadRequest) <==> c in old(db.convs) && old(db.convs)[c].kind == Group && old(db.convs)[c].dissolvedAt.Some?
      ensures r.Ok? || r == Err(NotFound) || r == Err(BadRequest)
      ensures r.Ok? ==> r.value == old(db.now)
    {
      if c !in db.convs || db.convs[c].kind != Group {
        return Err(NotFound);
      }
      if db.convs[c].dissolvedAt.Some? {
        return Err(BadRequest);
      }
      db.convs := db.convs[c := db.convs[c].(dissolvedAt := Some(db.now))];
      return Ok(db.now);
    }

    /** The transaction of an owner's dissolution: the stamp, and the deadline of every unmarked message. */
    method Burn(c: ConvId, operator: UserId)
      requires c in db.convs
      modifies db
      ensures db.Snapshot() == BurnDown(old(db.Snapshot()), {c}, operator)
    {
      var dissolvedAt := db.now;
      db.convs := db.convs[c := db.convs[c].(dissolvedAt := Some(dissolvedAt), dissolvedBy := Some(operator))];
      db.messages := map id | id in db.messages ::
        if db.messages[id].conv == c && !db.messages[id].isDestroyed then db.messages[id].(destroyAt := Some(dissolvedAt))
        else db.messages[id];
      ghost var s := BurnDown(old(db.Snapshot()), {c}, operator);
      assert db.convs == s.convs;
      assert db.messages == s.messages;
    }

    method DissolveGroupByOwner(c: ConvId, operator: UserId) returns (r: Result<Millis>)
      modifies db
      ensures Performs(cfg, old(db.Snapshot()), OpOwnerDissolve(Group, c, operator), db.Snapshot())
      ensures r.Err? ==> OwnerDissolveError(old(db.Snapshot()), Group, c, operator) == Some(r.error)
      ensures r.Ok? ==> OwnerDissolveError(old(db.Snapshot()), Group, c, operator).None? && r.value == old(db.now)
    {
      hide BurnDown;
      if c !in db.convs || db.convs[c].kind != Group {
        return Err(NotFound);
      }
      if db.convs[c].dissolvedAt.Some? {
        return Err(BadRequest);
      }
      if db.convs[c].owner != Some(operator) {
        return Err(Forbidden);
      }
      var at := db.now;
      Burn(c, operator);
      return Ok(at);
    }

    lemma BurnDownNothing(s: Db, operator: UserId)
      ensures BurnDown(s, {}, operator) == s
    {
      assert BurnDown(s, {}, operator).convs == s.convs;
      assert BurnDown(s, {}, operator).messages == s.messages;
    }

    lemma BurnDownOneMore(s: Db, done: set<ConvId>, c: ConvId, operator: UserId)
      requires done <= s.convs.Keys && c in s.convs && c !in done
      ensures c in BurnDown(s, done, operator).convs
      ensures BurnDown(BurnDown(s, done, operator), {c}, operator) == BurnDown(s, done + {c}, operator)
    {
      var step, whole := BurnDown(BurnDown(s, done, operator), {c}, operator), BurnDown(s, done + {c}, operator);
      assert step.convs == whole.convs;
      assert step.messages == whole.messages;
    }

    lemma NothingYet(owned: seq<ConvId>, failing: set<ConvId>)
      ensures Ids(owned[..0]) == {} && Ids(owned[..0]) - failing == {}
    {
    }

    lemma BurnTurn(owned: seq<ConvId>, i: nat, failing: set<ConvId>)
      requires Distinct(owned) && i < |owned|
      ensures
        var c, before := owned[i], Ids(owned[..i]);
        && c in Ids(owned) && c !in before && Ids(owned[..i + 1]) == before + {c}
        && Ids(owned[..i + 1]) - failing == (before - failing) + (if c in failing then {} else {c})
    {
      assert owned[..i + 1] == owned[..i] + [owned[i]];
    }

    /** One transaction per group; a failing one is skipped and the others go on. */
    method BurnEach(owned: seq<ConvId>, operator: UserId, failing: set<ConvId>) returns (dissolved: nat)
      requires Distinct(owned) && Ids(owned) <= db.convs.Keys
      modifies db
      ensures db.Snapshot() == BurnDown(old(db.Snapshot()), Ids(owned) - failing, operator)
      ensures dissolved == |Ids(owned) - failing|
    {
      hide BurnDown, Distinct, Ids;
      ghost var s := db.Snapshot();
      dissolved := 0;
      BurnDownNothing(s, operator);
      NothingYet(owned, failing);
      for i := 0 to |owned|
        invariant Ids(owned[..i]) <= s.convs.Keys
        invariant db.Snapshot() == BurnDown(s, Ids(owned[..i]) - failing, operator)
        invariant dissolved == |Ids(owned[..i]) - failing|
      {
        var c := owned[i];
        BurnTurn(owned, i, failing);
        if c in failing {
          continue;
        }
        BurnDownOneMore(s, Ids(owned[..i]) - failing, c, operator);
        Burn(c, operator);
        dissolved := dissolved + 1;
      }
      assert owned[..|owned|] == owned;
    }

    /** `failing` are the groups whose transaction throws. */
    method DissolveGroupsOnAccountDelete(owner: UserId, operator: UserId, failing: set<ConvId>)
      returns (total: nat, dissolved: nat)
      modifies db
      ensures Performs(cfg, old(db.Snapshot()), OpDissolveOnAccountDelete(owner, operator, failing), db.Snapshot())
      ensures total == |OwnedGroups(old(db.Snapshot()), owner)|
      ensures dissolved == |OwnedGroups(old(db.Snapshot()), owner) - failing|
    {
      hide BurnDown, Distinct;
      var owned := FindOwned(owner);
      dissolved := BurnEach(owned, operator, failing);
      total := |owned|;
    }

    /** The undissolved groups of the owner, in whatever order the database returns them. */
    method FindOwned(owner: UserId) returns (owned: seq<ConvId>)
      ensures Ids(owned) == OwnedGroups(db.Snapshot(), owner) && Distinct(owned)
      ensures |owned| == |OwnedGroups(db.Snapshot(), owner)|
    {
      var key := map c | c in OwnedGroups(db.Snapshot(), owner) :: 0;
      owned := Fetch(key, |key|);
      assert key.Keys == OwnedGroups(db.Snapshot(), owner);
      DistinctSize(owned);
      ProperSubsetSize(Ids(owned), key.Keys);
    }
  }

  class ChannelService {
    const db: Database
    const groups: GroupService
    const cfg: Config

    constructor (db: Database, groups: GroupService, cfg: Config)
      requires groups.db == db
      ensures this.db == db && this.groups == groups && this.cfg == cfg
    {
      this.db, this.groups, this.cfg := db, groups, cfg;
    }

    method CreateChannel(c: ConvId, owner: UserId) returns (r: Result<ConvId>)
      requires c !in db.convs
      modifies db
      ensures Performs(cfg, old(db.Snapshot()), OpCreateChannel(c, owner), db.Snapshot())
      ensures r == if HasChannel(old(db.Snapshot()), owner) then Err(Conflict) else Ok(c)
    {
      var existing := set x | x in db.convs && db.convs[x].kind == Channel && db.convs[x].owner == Some(owner)
                              && db.convs[x].dissolvedAt.None?;
      if existing != {} {
        var x :| x in existing;
        return Err(Conflict);
      }
      assert forall x | x in db.convs :: x !in existing;
      db.convs := db.convs[c := Conversation(Channel, Some(owner), true, 1, None, None)];
      db.members := db.members[MemberKey(c, owner) := Membership(Owner, None)];
      assert db.members == old(db.members) + OwnerRow(c, owner);
      return Ok(c);
    }

    method Subscribe(c: ConvId, u: UserId) returns (r: Result<bool>)
      modifies db
      ensures Performs(cfg, old(db.Snapshot()), OpSubscribe(c, u), db.Snapshot())
      ensures r.Err? ==> SubscribeError(old(db.Snapshot()), c) == Some(r.error)
      ensures r.Ok? ==> r.value && db.HasMember(c, u)
    {
      if !LiveChannel(db.Snapshot(), c) {
        return Err(NotFound);
      }
      if !db.convs[c].isPublic {
        return Err(Forbidden);
      }
      if db.HasMember(c, u) {
        return Ok(true);
      }
      db.members := db.members[MemberKey(c, u) := NEW_MEMBER];
      db.convs := db.convs[c := db.convs[c].(memberCount := db.convs[c].memberCount + 1)];
      return Ok(true);
    }

    method Unsubscribe(c: ConvId, u: UserId) returns (r: Result<bool>)
      modifies db
      ensures Performs(cfg, old(db.Snapshot()), OpUnsubscribe(c, u), db.Snapshot())
      ensures r.Err? ==> UnsubscribeError(old(db.Snapshot()), c, u) == Some(r.error)
      ensures r.Ok? ==> !r.value && !db.HasMember(c, u)
    {
      if !LiveChannel(db.Snapshot(), c) {
        return Err(NotFound);
      }
      if db.convs[c].owner == Some(u) {
        return Err(BadRequest);
      }
      if !db.HasMember(c, u) {
        return Ok(false);
      }
      db.members := db.members - {MemberKey(c, u)};
      db.convs := db.convs[c := db.convs[c].(memberCount := db.convs[c].memberCount - 1)];
      return Ok(false);
    }

    method DissolveChannel(c: ConvId, operator: UserId) returns (r: Result<Millis>)
      requires groups.db == db
      modifies db
      ensures Performs(cfg, old(db.Snapshot()), OpOwnerDissolve(Channel, c, operator), db.Snapshot())
      ensures r.Err? ==> OwnerDissolveError(old(db.Snapshot()), Channel, c, operator) == Some(r.error)
      ensures r.Ok? ==> OwnerDissolveError(old(db.Snapshot()), Channel, c, operator).None? && r.value == old(db.now)
    {
      hide BurnDown;
      if c !in db.convs || db.convs[c].kind != Channel {
        return Err(NotFound);
      }
      if db.convs[c].dissolvedAt.Some? {
        return Err(BadRequest);
      }
      if db.convs[c].owner != Some(operator) {
        return Err(Forbidden);
      }
      var at := db.now;
      groups.Burn(c, operator);
      return Ok(at);
    }
  }

  class ConversationService {
    const db: Database
    const cfg: Config

    constructor (db: Database, cfg: Config)
      ensures this.db == db && this.cfg == cfg
    {
      this.db, this.cfg := db, cfg;
    }

    /** `c` is the UUID a new conversation would draw. */
    method GetOrCreatePrivateConversation(c: ConvId, u: UserId, v: UserId, peerActive: bool) returns (r: Result<ConvId>)
      requires c !in db.convs
      modifies db
      ensures Performs(cfg, old(db.Snapshot()), OpOpenPrivate(c, u, v, peerActive), db.Snapshot())
      ensures r.Ok? ==> r.value in SharedPrivate(db.Snapshot(), u, v)
      ensures r == Err(NotFound) <==> !peerActive
      ensures r == Err(ServerError) <==> peerActive && u == v && SharedPrivate(old(db.Snapshot()), u, v) == {}
      ensures r.Ok? || r == Err(NotFound) || r == Err(ServerError)
    {
      hide SharedPrivate;
      if !peerActive {
        return Err(NotFound);
      }
      var existing := FindPrivate(u, v);
      if existing.Some? {
        return Ok(existing.value);
      }
      ghost var s := db.Snapshot();
      db.convs := db.convs[c := Conversation(Private, None, true, 0, None, None)];
      if u == v {
        // The second, equal member row is refused by the unique index.
        assert db.members == old(db.members) + map[];
        return Err(ServerError);
      }
      db.members := db.members[MemberKey(c, u) := NEW_MEMBER][MemberKey(c, v) := NEW_MEMBER];
      db.convs := db.convs[c := db.convs[c].(memberCount := 2)];
      BothRows(s, db.Snapshot(), c, u, v);
      return Ok(c);
    }

    lemma BothRows(s: Db, s': Db, c: ConvId, u: UserId, v: UserId)
      requires s'.members == s.members[MemberKey(c, u) := NEW_MEMBER][MemberKey(c, v) := NEW_MEMBER]
      requires c in s'.convs && s'.convs[c].kind == Private
      ensures s'.members == s.members + MemberRows(c, {u, v})
      ensures c in SharedPrivate(s', u, v)
    {
    }

    /** A private conversation among those both are members of. */
    method FindPrivate(u: UserId, v: UserId) returns (found: Option<ConvId>)
      ensures found.None? <==> SharedPrivate(db.Snapshot(), u, v) == {}
      ensures found.Some? ==> found.value in SharedPrivate(db.Snapshot(), u, v)
    {
      var convs1 := set k | k in db.members && k.user == u :: k.conv;
      var convs2 := set k | k in db.members && k.user == v :: k.conv;
      var privates := set x | x in convs1 * convs2 && x in db.convs && db.convs[x].kind == Private;
      assert forall x | db.HasMember(x, u) :: MemberKey(x, u) in db.members && x in convs1;
      assert forall x | db.HasMember(x, v) :: MemberKey(x, v) in db.members && x in convs2;
      assert privates == SharedPrivate(db.Snapshot(), u, v);
      if privates == {} {
        return None;
      }
      var x :| x in privates;
      return Some(x);
    }

    /** The caller's undissolved conversations, each with its unread count. */
    method ListMyConversations(u: UserId) returns (unread: map<ConvId, nat>)
      ensures unread.Keys == set c | c in db.convs && db.HasMember(c, u) && db.convs[c].dissolvedAt.None?
      ensures forall c | c in unread :: unread[c] == |ReadTheorems.UnreadIn(db.Snapshot(), c, u)|
    {
      var mine := set c | c in db.convs && db.HasMember(c, u) && db.convs[c].dissolvedAt.None?;
      var rows := set k | k in db.receipts && k.user == u && !db.receipts[k].isRead && k.msg in db.messages
                          && !db.messages[k.msg].isDestroyed
                          && !(db.messages[k.msg].destroyAt.Some? && db.messages[k.msg].destroyAt.value <= db.now)
                          && db.messages[k.msg].conv in mine;
      unread := map c | c in mine :: |set k | k in rows && db.messages[k.msg].conv == c|;
      forall c | c in unread ensures unread[c] == |ReadTheorems.UnreadIn(db.Snapshot(), c, u)| {
        assert (set k | k in rows && db.messages[k.msg].conv == c) == ReadTheorems.UnreadIn(db.Snapshot(), c, u);
      }
    }
  }
}
