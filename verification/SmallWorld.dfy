/** Two people and one private conversation: small databases to build runs in. */
module SmallWorld {
  import opened Prelude
  import opened Query
  import opened ChatDb
  import opened BurnSpec
  import opened ConversationSpec
  import opened Runs
  import opened Tables

  function EmptyDb(now: Millis): Db {
    Db(now, map[], map[], {}, map[], map[], map[])
  }

  // ----- growing a run at its front -----

  lemma Stays(cfg: Config, s: Db)
    ensures Run(cfg, s, []) && Exec(cfg, s, []) == s
  {
  }

  /** `op` comes before `ops`. */
  lemma Before(cfg: Config, s: Db, op: Op, s1: Db, ops: seq<Op>, s': Db) returns (all: seq<Op>)
    requires Performs(cfg, s, op, s1) && Run(cfg, s1, ops) && Exec(cfg, s1, ops) == s'
    ensures all == [op] + ops && Run(cfg, s, all) && Exec(cfg, s, all) == s'
  {
    hide Step, Enabled;
    all := [op] + ops;
    assert all[1..] == ops;
  }

  // ----- the two people -----

  /** Members 1 and 2 of conversation 0; `mark` is how far 1 has read. */
  function Pair(now: Millis, messages: map<MsgId, Message>, receipts: map<CopyKey, Receipt>, acks: set<CopyKey>,
                tombstones: map<MsgId, Tombstone>, mark: Option<MsgId>): Db
  {
    Db(now, messages, receipts, acks, tombstones,
       map[0 := Conversation(Private, None, true, 2, None, None)],
       map[MemberKey(0, 1) := Membership(Member, mark), MemberKey(0, 2) := Membership(Member, None)])
  }

  ghost predicate IsPair(s: Db) {
    exists mark :: s == Pair(s.now, s.messages, s.receipts, s.acks, s.tombstones, mark)
  }

  const HI := Content(Some("hi"), None, None, None, None, None, None, None)

  function Hello(sender: UserId, ttl: Option<nat>): Draft {
    Draft(0, sender, Text, HI, None, None, if ttl.Some? then Some(ttl.value as real) else None, None, [])
  }

  function Greeting(sender: UserId, at: Millis, ttl: Option<nat>, destroyAt: Option<Millis>): Message {
    Message(0, sender, Text, HI, None, None, [], false, false, false, at, ttl, destroyAt, false, None, None)
  }

  /** The copies of a fresh message. */
  function PairCopies(id: MsgId, sender: UserId, at: Millis): map<CopyKey, Receipt>
    requires sender == 1 || sender == 2
  {
    map[CopyKey(id, sender) := Receipt(true, Some(at), None, None), CopyKey(id, 3 - sender) := UNREAD_COPY]
  }

  lemma PairMeets(cfg: Config)
    ensures Performs(cfg, EmptyDb(0), OpOpenPrivate(0, 1, 2, true), Pair(0, map[], map[], {}, map[], None))
  {
    var s, s' := EmptyDb(0), Pair(0, map[], map[], {}, map[], None);
    assert SharedPrivate(s, 1, 2) == {};
    assert MemberRows(0, {1, 2}) == s'.members;
    assert s.members + MemberRows(0, {1, 2}) == s'.members;
  }

  lemma RosterOfPair(s: Db)
    requires IsPair(s)
    ensures s.Roster(0) == {MemberKey(0, 1), MemberKey(0, 2)}
  {
  }

  lemma PairSends(cfg: Config, s: Db, id: MsgId, sender: UserId, ttl: Option<nat>)
    requires IsPair(s) && (sender == 1 || sender == 2) && id !in s.messages && id !in s.tombstones
    requires ttl.Some? ==> 1 <= ttl.value <= MAX_BURN_TTL_SECONDS
    ensures Performs(cfg, s, OpSend(id, Hello(sender, ttl)),
              s.(messages := s.messages[id := Greeting(sender, s.now, ttl,
                   if ttl.Some? then Some(s.now + Max(cfg.fallbackMs, ttl.value * 1000)) else None)],
                 receipts := s.receipts + PairCopies(id, sender, s.now)))
  {
    var d := Hello(sender, ttl);
    RosterOfPair(s);
    WholeSeconds(ttl, s.now);
    assert SendError(s, d).None?;
    assert Dedup<UserId>([]) == [];
    NewCopiesOfPair(s, id, sender, ttl);
  }

  lemma WholeSeconds(ttl: Option<nat>, now: Millis)
    requires ttl.Some? ==> 1 <= ttl.value <= MAX_BURN_TTL_SECONDS
    ensures NormalizeBurnTtl(if ttl.Some? then Some(ttl.value as real) else None, None, now) == ttl
  {
    if ttl.Some? {
      var n: int := ttl.value;
      assert -(n as real) == (-n) as real;
    }
  }

  lemma NewCopiesOfPair(s: Db, id: MsgId, sender: UserId, ttl: Option<nat>)
    requires s.Roster(0) == {MemberKey(0, 1), MemberKey(0, 2)} && (sender == 1 || sender == 2)
    ensures NewCopies(s, id, Hello(sender, ttl)) == PairCopies(id, sender, s.now)
  {
    var copies := NewCopies(s, id, Hello(sender, ttl));
    var keys := set m | m in s.Roster(0) :: CopyKey(id, m.user);
    assert MemberKey(0, 1) in s.Roster(0) && MemberKey(0, 2) in s.Roster(0);
    assert keys == {CopyKey(id, 1), CopyKey(id, 2)};
  }

  /** A first reveal of a text message by 1 or 2. */
  lemma Opens(cfg: Config, s: Db, id: MsgId, u: UserId, burnAt: Millis)
    requires IsPair(s) && (u == 1 || u == 2) && FirstReveal(s, id, u) && s.messages[id].kind == Text
    requires burnAt == s.now + s.messages[id].burnTtl.value * 1000
    ensures Performs(cfg, s, OpReveal(id, u, None), OpenCopy(s, id, u, burnAt))
  {
  }

  /** Member 1 reads one listed message, and the watermark goes there unless it is on a newer one. */
  lemma PairReads(cfg: Config, s: Db, id: MsgId, mark: Option<MsgId>)
    requires s == Pair(s.now, s.messages, s.receipts, s.acks, s.tombstones, mark)
    requires id in s.messages && s.messages[id].conv == 0 && !s.messages[id].isDestroyed
    requires CopyKey(id, 1) in s.receipts && !s.receipts[CopyKey(id, 1)].isRead
    requires mark.Some? && mark.value in s.messages ==> s.messages[mark.value].createdAt <= s.messages[id].createdAt
    ensures
      var k := CopyKey(id, 1);
      Performs(cfg, s, OpMarkMessagesRead(0, 1, [id], [id]),
        Pair(s.now, s.messages, s.receipts[k := s.receipts[k].(isRead := true, readAt := Some(s.now))], s.acks, s.tombstones, Some(id)))
  {
    hide ListedUnread, NewestListedKey, SetRead, MarkMessagesReadError;
    OneId(id);
    OneUnread(s, id);
    OneRead(s, CopyKey(id, 1));
    OnePage(s, id);
  }

  lemma OneUnread(s: Db, id: MsgId)
    requires id in s.messages && s.messages[id].conv == 0 && !s.messages[id].isDestroyed
    requires CopyKey(id, 1) in s.receipts && !s.receipts[CopyKey(id, 1)].isRead
    ensures ListedUnread(s, 0, 1, [id]) == {CopyKey(id, 1)}
  {
  }

  lemma OneRead(s: Db, k: CopyKey)
    requires k in s.receipts
    ensures SetRead(s, {k}) == s.(receipts := s.receipts[k := s.receipts[k].(isRead := true, readAt := Some(s.now))])
  {
    assert SetRead(s, {k}).receipts == s.receipts[k := s.receipts[k].(isRead := true, readAt := Some(s.now))];
  }

  lemma OnePage(s: Db, id: MsgId)
    requires id in s.messages && s.messages[id].conv == 0
    ensures Page([id], NewestListedKey(s, 0, [id]), 1)
  {
    assert NewestListedKey(s, 0, [id]) == map[id := -(s.messages[id].createdAt as int)];
    hide NewestListedKey;
  }

  lemma OneId(id: MsgId)
    ensures Dedup([id]) == [id]
    ensures forall s: Db | s.IsMember(0, 1) && 0 in s.convs :: MarkMessagesReadError(s, 0, 1, [id]).None?
  {
    assert [id][..0] == [];
  }

  lemma PairDestroys(cfg: Config, s: Db, id: MsgId)
    requires IsPair(s) && id in s.messages && !s.messages[id].isDestroyed
    ensures Performs(cfg, s, OpManualDestroy(id),
              s.(messages := s.messages[id := s.messages[id].(isDestroyed := true, destroyedAt := Some(s.now), destroyReason := Some(Manual))]))
  {
    assert MarkRows(s, {id}, s.now, Manual).messages == s.messages[id := Marked(s.messages[id], s.now, Manual)];
  }

  /** One confirmation is enough in a private conversation. */
  lemma PairConfirms(cfg: Config, s: Db, u: UserId, id: MsgId)
    requires IsPair(s) && (u == 1 || u == 2) && id in s.messages && s.messages[id].conv == 0 && s.messages[id].isDestroyed
    ensures Performs(cfg, s, OpAck(0, u, [id]), PurgeRows(s, {id}))
  {
    hide PurgeRows, MeetsPurgePolicy, AckPurges, RecordAcks, Listed, AckError;
    MayConfirm(s, u, id);
    OneConfirmation(cfg, s, u, id);
    PurgeForgetsAcks(s, {id}, u);
  }

  lemma MayConfirm(s: Db, u: UserId, id: MsgId)
    requires s.IsMember(0, u) && 0 in s.convs
    requires id in s.messages && s.messages[id].conv == 0 && s.messages[id].isDestroyed
    ensures Listed(s, 0, [id]) == {id} && AckError(s, 0, u, [id]).None?
  {
  }

  lemma OneConfirmation(cfg: Config, s: Db, u: UserId, id: MsgId)
    requires 0 in s.convs && s.convs[0].kind == Private && Listed(s, 0, [id]) == {id}
    ensures AckPurges(cfg, s, 0, u, [id]) == {id}
  {
    hide Listed;
    assert CopyKey(id, u) in RecordAcks(s, {id}, u).AckedBy(id);
    assert |RecordAcks(s, {id}, u).AckedBy(id)| >= 1;
  }

  /** The confirmations of a purged row go with it. */
  lemma PurgeForgetsAcks(s: Db, ids: set<MsgId>, u: UserId)
    requires ids <= s.messages.Keys
    ensures PurgeRows(RecordAcks(s, ids, u), ids) == PurgeRows(s, ids)
  {
    assert PurgeRows(RecordAcks(s, ids, u), ids).acks == PurgeRows(s, ids).acks;
  }
}
