/** Threshold 0 in a group of a sender and two recipients: a purge that one recipient never confirmed. */
module ThresholdTheorems {
  import opened Prelude
  import opened ChatDb
  import opened BurnSpec
  import opened ConversationSpec
  import opened Runs
  import opened Tables
  import opened LifecycleTheorems
  import opened PurgeTheorems
  import opened SmallWorld

  /** Owner 1 and members 2 and 3 of group 0. */
  function Trio(messages: map<MsgId, Message>, receipts: map<CopyKey, Receipt>, acks: set<CopyKey>): Db {
    Db(0, messages, receipts, acks, map[],
       map[0 := Conversation(Group, Some(1), true, 3, None, None)],
       map[MemberKey(0, 1) := Membership(Owner, None), MemberKey(0, 2) := NEW_MEMBER, MemberKey(0, 3) := NEW_MEMBER])
  }

  const LIVE := Greeting(1, 0, None, None)
  const BURNT := LIVE.(isDestroyed := true, destroyedAt := Some(0), destroyReason := Some(Manual))

  function ThreeCopies(): map<CopyKey, Receipt> {
    map[CopyKey(5, 1) := Receipt(true, Some(0), None, None), CopyKey(5, 2) := UNREAD_COPY, CopyKey(5, 3) := UNREAD_COPY]
  }

  /** Everything is in place for 2 to confirm; only the sender has so far. */
  function SenderConfirmed(): Db {
    Trio(map[5 := BURNT], ThreeCopies(), {CopyKey(5, 1)})
  }

  lemma TrioMeets(cfg: Config)
    ensures Performs(cfg, EmptyDb(0), OpCreateGroup(0, 1, [2, 3]), Trio(map[], map[], {}))
  {
    hide Without, Distinct, MemberRows, OwnerRow, Ids;
    NobodyTwice();
    FirstThreeRows();
    assert |{2, 3}| == 2;
  }

  lemma NobodyTwice()
    ensures !RepeatsOther([2, 3], 1) && Ids<UserId>([2, 3]) - {1} == {2, 3}
  {
    var ids: seq<UserId> := [2, 3];
    assert ids[..1] == [2] && [2][..0] == [];
    assert Without<UserId>([], {1}) == [];
    assert Without<UserId>([2], {1}) == [2];
    assert Without(ids, {1}) == [2, 3];
  }

  lemma FirstThreeRows()
    ensures map[] + (MemberRows(0, {2, 3}) + OwnerRow(0, 1)) == Trio(map[], map[], {}).members
  {
  }

  lemma TrioRoster(s: Db)
    requires s.members == Trio(map[], map[], {}).members
    ensures s.Roster(0) == {MemberKey(0, 1), MemberKey(0, 2), MemberKey(0, 3)}
  {
  }

  lemma TrioSends(cfg: Config)
    ensures Performs(cfg, Trio(map[], map[], {}), OpSend(5, Hello(1, None)), Trio(map[5 := LIVE], ThreeCopies(), {}))
  {
    var s, d := Trio(map[], map[], {}), Hello(1, None);
    TrioRoster(s);
    WholeSeconds(None, 0);
    assert SendError(s, d).None?;
    assert Dedup<UserId>([]) == [];
    TrioCopies(s);
    assert s.receipts + ThreeCopies() == ThreeCopies();
    hide NewCopies, SendError, NormalizeBurnTtl;
  }

  lemma TrioCopies(s: Db)
    requires s == Trio(map[], map[], {})
    ensures NewCopies(s, 5, Hello(1, None)) == ThreeCopies()
  {
    TrioRoster(s);
    var keys := set m | m in s.Roster(0) :: CopyKey(5, m.user);
    assert MemberKey(0, 1) in s.Roster(0) && MemberKey(0, 2) in s.Roster(0) && MemberKey(0, 3) in s.Roster(0);
    assert keys == {CopyKey(5, 1), CopyKey(5, 2), CopyKey(5, 3)};
  }

  lemma TrioDestroys(cfg: Config)
    ensures Performs(cfg, Trio(map[5 := LIVE], ThreeCopies(), {}), OpManualDestroy(5), Trio(map[5 := BURNT], ThreeCopies(), {}))
  {
    assert MarkRows(Trio(map[5 := LIVE], ThreeCopies(), {}), {5}, 0, Manual).messages == map[5 := BURNT];
  }

  lemma TrioAcks(acks: set<CopyKey>, u: UserId)
    requires u == 1 || u == 2
    ensures
      var s := Trio(map[5 := BURNT], ThreeCopies(), acks);
      AckError(s, 0, u, [5]).None? && Listed(s, 0, [5]) == {5}
      && RecordAcks(s, {5}, u) == Trio(map[5 := BURNT], ThreeCopies(), acks + {CopyKey(5, u)})
  {
  }

  lemma SenderConfirms(cfg: Config)
    requires cfg.ackThreshold == 0
    ensures Performs(cfg, Trio(map[5 := BURNT], ThreeCopies(), {}), OpAck(0, 1, [5]), SenderConfirmed())
  {
    hide PurgeRows, MeetsPurgePolicy, RecordAcks, AckError, Listed, ThreeCopies;
    TrioAcks({}, 1);
    OneIsNotEnough(cfg);
    assert {} + {CopyKey(5, 1)} == {CopyKey(5, 1)};
    assert AckPurges(cfg, Trio(map[5 := BURNT], ThreeCopies(), {}), 0, 1, [5]) == {};
    PurgeNothing(SenderConfirmed());
  }

  lemma OneIsNotEnough(cfg: Config)
    requires cfg.ackThreshold == 0
    ensures !MeetsPurgePolicy(cfg, SenderConfirmed(), 0, 5)
  {
    var s := SenderConfirmed();
    TrioRoster(s);
    assert s.AckedBy(5) == {CopyKey(5, 1)};
    assert s.Roster(0) - {MemberKey(0, 1)} == {MemberKey(0, 2), MemberKey(0, 3)};
  }

  lemma SenderConfirmedIsReachable(cfg: Config)
    requires cfg.ackThreshold == 0
    ensures Reachable(cfg, SenderConfirmed())
  {
    TrioMeets(cfg);
    TrioSends(cfg);
    TrioDestroys(cfg);
    SenderConfirms(cfg);
    hide Run, Exec, Performs, Trio, SenderConfirmed;
    var s := SenderConfirmed();
    var ops: seq<Op> := [];
    Stays(cfg, s);
    ops := Before(cfg, Trio(map[5 := BURNT], ThreeCopies(), {}), OpAck(0, 1, [5]), s, ops, s);
    ops := Before(cfg, Trio(map[5 := LIVE], ThreeCopies(), {}), OpManualDestroy(5), Trio(map[5 := BURNT], ThreeCopies(), {}), ops, s);
    ops := Before(cfg, Trio(map[], map[], {}), OpSend(5, Hello(1, None)), Trio(map[5 := LIVE], ThreeCopies(), {}), ops, s);
    ops := Before(cfg, EmptyDb(0), OpCreateGroup(0, 1, [2, 3]), Trio(map[], map[], {}), ops, s);
    assert Initial(EmptyDb(0));
  }

  /**
   * The failing case occurs. In a reachable database the sender has confirmed; recipient 2
   * confirms too; with one recipient missing and one confirmation from outside the recipients
   * the message is purged, and recipient 3 never confirmed.
   */
  lemma PurgedWithoutEverybody(cfg: Config)
    requires cfg.ackThreshold == 0
    ensures
      var s := SenderConfirmed();
      var s1 := RecordAcks(s, {5}, 2);
      && Reachable(cfg, s) && PhaseOf(s, 5) == Marked && !MeetsPurgePolicy(cfg, s, 0, 5)
      && |Recipients(s1, 0, 5) - s1.AckedBy(5)| == 1 == |s1.AckedBy(5) - Recipients(s1, 0, 5)|
      && CopyKey(5, 3) in Recipients(s, 0, 5) && CopyKey(5, 3) !in s1.acks
      && PhaseOf(Step(cfg, s, OpAck(0, 2, [5])), 5) == Purged
  {
    hide Reachable, Recipients, MeetsPurgePolicy, PurgeRows, RecordAcks, AckError, Listed, ThreeCopies, Db.AckedBy;
    SenderConfirmedIsReachable(cfg);
    OneIsNotEnough(cfg);
    TrioAcks({CopyKey(5, 1)}, 2);
    var s1 := RecordAcks(SenderConfirmed(), {5}, 2);
    WhoConfirmed(SenderConfirmed(), {CopyKey(5, 1)});
    WhoConfirmed(s1, {CopyKey(5, 1), CopyKey(5, 2)});
    assert Recipients(s1, 0, 5) - s1.AckedBy(5) == {CopyKey(5, 3)};
    assert s1.AckedBy(5) - Recipients(s1, 0, 5) == {CopyKey(5, 1)};
    ThresholdZeroCounts(cfg, s1, 0, 5);
    assert AckPurges(cfg, SenderConfirmed(), 0, 2, [5]) == {5};
    PurgesFive(s1);
  }

  lemma PurgesFive(s: Db)
    requires 5 in s.messages
    ensures PhaseOf(PurgeRows(s, {5}), 5) == Purged
  {
  }

  lemma WhoConfirmed(s: Db, acks: set<CopyKey>)
    requires s == Trio(map[5 := BURNT], ThreeCopies(), acks) && acks <= {CopyKey(5, 1), CopyKey(5, 2)}
    ensures s.AckedBy(5) == acks && Recipients(s, 0, 5) == {CopyKey(5, 2), CopyKey(5, 3)}
  {
    TrioRoster(s);
    var rest := s.Roster(0) - {MemberKey(0, 1)};
    assert rest == {MemberKey(0, 2), MemberKey(0, 3)};
    assert MemberKey(0, 2) in rest && MemberKey(0, 3) in rest;
  }
}
