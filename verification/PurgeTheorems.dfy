/** Physical deletion: what a confirmation purges, and what the hourly sweep gets through. */
module PurgeTheorems {
  import opened Prelude
  import opened Query
  import opened ChatDb
  import opened BurnSpec
  import opened Runs
  import opened ChatInvariant
  import opened LifecycleTheorems

  // ----- purging row by row is purging the set -----

  lemma PurgeNothing(s: Db)
    ensures PurgeRows(s, {}) == s
  {
    var s' := PurgeRows(s, {});
    assert s'.tombstones == s.tombstones && s'.acks == s.acks && s'.receipts == s.receipts;
    assert s'.messages == s.messages;
  }

  lemma PurgeOneMoreRow(s: Db, ids: set<MsgId>, id: MsgId)
    requires ids <= s.messages.Keys && id in s.messages && id !in ids
    ensures PurgeRows(PurgeRows(s, ids), {id}).messages == PurgeRows(s, ids + {id}).messages
  {
    forall m: Message ensures CutReply(CutReply(m, ids), {id}) == CutReply(m, ids + {id}) {}
  }

  lemma PurgeOneMoreTombstone(s: Db, ids: set<MsgId>, id: MsgId)
    requires ids <= s.messages.Keys && id in s.messages && id !in ids
    ensures PurgeRows(PurgeRows(s, ids), {id}).tombstones == PurgeRows(s, ids + {id}).tombstones
  {
    assert TombstoneOf(CutReply(s.messages[id], ids), s.now) == TombstoneOf(s.messages[id], s.now);
  }

  lemma PurgeOneMore(s: Db, ids: set<MsgId>, id: MsgId)
    requires ids <= s.messages.Keys && id in s.messages && id !in ids
    ensures id in PurgeRows(s, ids).messages
    ensures PurgeRows(PurgeRows(s, ids), {id}) == PurgeRows(s, ids + {id})
  {
    PurgeOneMoreRow(s, ids, id);
    PurgeOneMoreTombstone(s, ids, id);
    var step, whole := PurgeRows(PurgeRows(s, ids), {id}), PurgeRows(s, ids + {id});
    assert step.acks == whole.acks;
    assert step.receipts == whole.receipts;
  }

  // ----- ack -----

  /** One unburned row of the conversation in the list refuses the whole request. */
  lemma AckRefusesUnburned(cfg: Config, s: Db, c: ConvId, u: UserId, ids: seq<MsgId>, id: MsgId)
    requires s.IsMember(c, u) && c in s.convs
    requires id in ids && PhaseOf(s, id) == Live && s.messages[id].conv == c
    ensures Ack(cfg, s, c, u, ids) == (s, Err(BadRequest))
  {
    assert id in Listed(s, c, ids);
  }

  /**
   * A member's confirmation in an existing conversation is refused, and changes nothing, if and
   * only if the list names a message of the conversation that is not destroyed yet; ids that are
   * purged, unknown or of other conversations do not matter. A stranger's is forbidden.
   */
  lemma AckIsRefusedExactly(cfg: Config, s: Db, c: ConvId, u: UserId, ids: seq<MsgId>)
    requires c in s.convs
    ensures
      var (s', r) := Ack(cfg, s, c, u, ids);
      && (r == Err(Forbidden) <==> MemberKey(c, u) !in s.members)
      && (r == Err(BadRequest) <==>
            MemberKey(c, u) in s.members && exists id :: id in ids && PhaseOf(s, id) == Live && s.messages[id].conv == c)
      && (r.Err? ==> s' == s && r.error in {Forbidden, BadRequest})
  {
    hide MeetsPurgePolicy, PurgeRows, RecordAcks;
    if s.IsMember(c, u) {
      AckIsAcceptedOtherwise(cfg, s, c, u, ids);
    }
  }

  lemma AckIsAcceptedOtherwise(cfg: Config, s: Db, c: ConvId, u: UserId, ids: seq<MsgId>)
    requires s.IsMember(c, u) && c in s.convs
    ensures
      var (s', r) := Ack(cfg, s, c, u, ids);
      && (r.Err? <==> exists id :: id in ids && PhaseOf(s, id) == Live && s.messages[id].conv == c)
      && (r.Err? ==> s' == s && r == Err(BadRequest))
  {
    hide MeetsPurgePolicy, PurgeRows, RecordAcks;
    forall id | id in ids && PhaseOf(s, id) == Live && s.messages[id].conv == c ensures Ack(cfg, s, c, u, ids).1.Err? {
      AckRefusesUnburned(cfg, s, c, u, ids, id);
    }
    if AckError(s, c, u, ids).Some? {
      var id :| id in Listed(s, c, ids) && !s.messages[id].isDestroyed;
      assert id in ids && PhaseOf(s, id) == Live;
    }
  }

  /**
   * What an accepted confirmation does to every id: the listed rows of the conversation are
   * recorded and exactly those whose policy then holds become tombstones; every other row,
   * confirmation and tombstone stays.
   */
  lemma AckIsExact(cfg: Config, s: Db, c: ConvId, u: UserId, ids: seq<MsgId>, id: MsgId)
    requires Reachable(cfg, s) && AckError(s, c, u, ids).None? && c in s.convs
    ensures
      var s' := Ack(cfg, s, c, u, ids).0;
      var listed := id in ids && id in s.messages && s.messages[id].conv == c;
      var purged := listed && MeetsPurgePolicy(cfg, RecordAcks(s, Listed(s, c, ids), u), c, id);
      && PhaseOf(s', id) == (if purged then Purged else PhaseOf(s, id))
      && s'.AckedBy(id) == (if purged then {} else if listed then s.AckedBy(id) + {CopyKey(id, u)} else s.AckedBy(id))
      && StampOf(s', id) == StampOf(s, id) && OriginOf(s', id) == OriginOf(s, id)
      && var r := Ack(cfg, s, c, u, ids).1;
         && r.Ok? && (id in r.value.purgedIds <==> purged)
         && r.value.acked == |set x | x in ids && x in s.messages && s.messages[x].conv == c|
  {
    hide Consistent, Reachable, MeetsPurgePolicy, AckError, PurgeRows, RecordAcks;
    ReachableIsConsistent(cfg, s);
    var listed, purged := Listed(s, c, ids), AckPurges(cfg, s, c, u, ids);
    var s1 := RecordAcks(s, listed, u);
    AfterRecord(s, listed, u, id);
    if id in s.messages {
      RowFacts(cfg, s, id);
      SameRowOk(cfg, s, listed, u, id);
    }
    assert listed == set x | x in ids && x in s.messages && s.messages[x].conv == c;
    if ids != [] {
      AckListsMarked(s, c, u, ids);
      PhaseAfterPurge(cfg, s1, purged, id);
    }
  }

  lemma AckListsMarked(s: Db, c: ConvId, u: UserId, ids: seq<MsgId>)
    requires AckError(s, c, u, ids).None? && ids != []
    ensures forall id | id in Listed(s, c, ids) :: PhaseOf(s, id) == Marked
  {
  }

  lemma SameRowOk(cfg: Config, s: Db, ids: set<MsgId>, u: UserId, id: MsgId)
    requires id in s.messages && MessageOk(cfg, s, id)
    ensures MessageOk(cfg, RecordAcks(s, ids, u), id)
  {
  }

  lemma AfterRecord(s: Db, ids: set<MsgId>, u: UserId, id: MsgId)
    ensures
      var s1 := RecordAcks(s, ids, u);
      && s1 == s.(acks := s1.acks)
      && s1.AckedBy(id) == s.AckedBy(id) + (if id in ids then {CopyKey(id, u)} else {})
      && PhaseOf(s1, id) == PhaseOf(s, id)
      && StampOf(s1, id) == StampOf(s, id) && OriginOf(s1, id) == OriginOf(s, id)
  {
  }

  lemma PhaseAfterPurge(cfg: Config, s: Db, ids: set<MsgId>, id: MsgId)
    requires ids <= s.messages.Keys
    requires id in s.messages ==> MessageOk(cfg, s, id)
    requires id in ids ==> PhaseOf(s, id) == Marked
    ensures
      var s' := PurgeRows(s, ids);
      && PhaseOf(s', id) == (if id in ids then Purged else PhaseOf(s, id))
      && StampOf(s', id) == StampOf(s, id) && OriginOf(s', id) == OriginOf(s, id)
      && s'.AckedBy(id) == (if id in ids then {} else s.AckedBy(id))
  {
  }

  /** Neither the order of the list nor repetitions in it matter. */
  lemma AckDependsOnTheSet(cfg: Config, s: Db, c: ConvId, u: UserId, ids: seq<MsgId>, ids': seq<MsgId>)
    requires Ids(ids) == Ids(ids')
    ensures Ack(cfg, s, c, u, ids) == Ack(cfg, s, c, u, ids')
  {
    assert forall id :: id in ids <==> id in Ids(ids);
    assert forall id :: id in ids' <==> id in Ids(ids');
    assert Listed(s, c, ids) == Listed(s, c, ids');
    assert ids == [] <==> ids' == [] by {
      if ids != [] {
        assert ids[0] in Ids(ids);
      }
      if ids' != [] {
        assert ids'[0] in Ids(ids');
      }
    }
  }

  /** The acks of a surviving row are the same after other rows are purged, and so is its policy. */
  lemma PolicySurvivesPurge(cfg: Config, s: Db, ids: set<MsgId>, c: ConvId, id: MsgId)
    requires ids <= s.messages.Keys && c in s.convs && id in s.messages && id !in ids
    ensures MeetsPurgePolicy(cfg, PurgeRows(s, ids), c, id) == MeetsPurgePolicy(cfg, s, c, id)
  {
    var s' := PurgeRows(s, ids);
    assert s'.AckedBy(id) == s.AckedBy(id);
    assert s'.Roster(c) == s.Roster(c);
    assert s'.messages[id].sender == s.messages[id].sender;
  }

  /** Confirming twice changes nothing the second time. */
  lemma AckIsIdempotent(cfg: Config, s: Db, c: ConvId, u: UserId, ids: seq<MsgId>)
    ensures
      var s' := Ack(cfg, s, c, u, ids).0;
      Ack(cfg, s', c, u, ids).0 == s'
  {
    if AckError(s, c, u, ids).None? && ids != [] {
      var listed, purged := Listed(s, c, ids), AckPurges(cfg, s, c, u, ids);
      var s1 := RecordAcks(s, listed, u);
      var s' := PurgeRows(s1, purged);
      assert Listed(s', c, ids) == listed - purged;
      assert RecordAcks(s', listed - purged, u).acks == s'.acks;
      assert AckPurges(cfg, s', c, u, ids) == {} by {
        forall id | id in listed - purged ensures !MeetsPurgePolicy(cfg, s', c, id) {
          PolicySurvivesPurge(cfg, s1, purged, c, id);
        }
      }
      PurgeNothing(s');
    }
  }

  /**
   * One round of the client's loop, fetching the pending list and confirming it: the round
   * is accepted and leaves exactly the pending rows the page did not reach.
   */
  lemma PendingRound(cfg: Config, s: Db, c: ConvId, u: UserId, rows: seq<MsgId>)
    requires s.IsMember(c, u) && c in s.convs
    requires Page(rows, PendingKey(s, c, u), PENDING_LIMIT)
    ensures
      var (s', r) := Ack(cfg, s, c, u, rows);
      && r.Ok?
      && Pending(s', c, u) == Pending(s, c, u) - Ids(rows)
      && |Pending(s', c, u)| == Max(0, |Pending(s, c, u)| - 500)
      && s'.IsMember(c, u) && c in s'.convs
  {
    PendingPage(s, c, u, rows);
    hide MeetsPurgePolicy, PurgeRows, RecordAcks, Pending, PendingKey, AckError;
    if rows == [] {
      assert Pending(s, c, u) - Ids(rows) == Pending(s, c, u);
    } else {
      PendingAfterRecord(s, Ids(rows), c, u);
      PendingAfterPurge(RecordAcks(s, Ids(rows), u), AckPurges(cfg, s, c, u, rows), c, u);
      assert Pending(s, c, u) - Ids(rows) - AckPurges(cfg, s, c, u, rows) == Pending(s, c, u) - Ids(rows);
    }
  }

  /** A page of pending rows is an acceptable confirmation of all of itself. */
  lemma PendingPage(s: Db, c: ConvId, u: UserId, rows: seq<MsgId>)
    requires s.IsMember(c, u) && c in s.convs
    requires Page(rows, PendingKey(s, c, u), PENDING_LIMIT)
    ensures Listed(s, c, rows) == Ids(rows) && AckError(s, c, u, rows).None?
    ensures |Pending(s, c, u) - Ids(rows)| == Max(0, |Pending(s, c, u)| - PENDING_LIMIT)
  {
    PageTakes(rows, PendingKey(s, c, u), PENDING_LIMIT);
    assert PendingKey(s, c, u).Keys == Pending(s, c, u);
  }

  /** The pending list is the oldest marks: at most 500, in order, and a row that is missing was marked no earlier. */
  lemma PendingIsOldestFirst(cfg: Config, s: Db, c: ConvId, u: UserId, rows: seq<MsgId>, id: MsgId)
    requires Reachable(cfg, s) && Page(rows, PendingKey(s, c, u), PENDING_LIMIT)
    ensures forall x | x in Pending(s, c, u) :: s.messages[x].destroyedAt.Some?
    ensures |rows| <= 500 && forall x | x in rows :: x in Pending(s, c, u)
    ensures forall i, j | 0 <= i < j < |rows| ::
              s.messages[rows[i]].destroyedAt.value <= s.messages[rows[j]].destroyedAt.value
    ensures id in Pending(s, c, u) && id !in rows ==>
              |rows| == 500 && forall x | x in rows :: s.messages[x].destroyedAt.value <= s.messages[id].destroyedAt.value
  {
    hide Reachable, Consistent;
    ReachableIsConsistent(cfg, s);
    forall x | x in Pending(s, c, u) ensures s.messages[x].destroyedAt.Some? {
      RowFacts(cfg, s, x);
    }
    var key := PendingKey(s, c, u);
    assert forall x | x in key :: key[x] == s.messages[x].destroyedAt.value;
    assert forall i | 0 <= i < |rows| :: rows[i] in key;
    if id in Pending(s, c, u) && id !in rows {
      PageMisses(rows, key, PENDING_LIMIT, id);
    }
  }

  lemma PendingAfterRecord(s: Db, ids: set<MsgId>, c: ConvId, u: UserId)
    ensures Pending(RecordAcks(s, ids, u), c, u) == Pending(s, c, u) - ids
    ensures RecordAcks(s, ids, u).messages == s.messages
    ensures RecordAcks(s, ids, u).members == s.members && RecordAcks(s, ids, u).convs == s.convs
  {
  }

  lemma PendingAfterPurge(s: Db, ids: set<MsgId>, c: ConvId, u: UserId)
    requires ids <= s.messages.Keys
    ensures Pending(PurgeRows(s, ids), c, u) == Pending(s, c, u) - ids
    ensures PurgeRows(s, ids).members == s.members && PurgeRows(s, ids).convs == s.convs
  {
  }

  /** `rounds` is a client that keeps fetching and confirming, with nothing else going on. */
  ghost predicate Drains(cfg: Config, s: Db, c: ConvId, u: UserId, rounds: seq<seq<MsgId>>, s': Db)
    decreases |rounds|
  {
    if rounds == [] then
      s' == s
    else
      && Page(rounds[0], PendingKey(s, c, u), PENDING_LIMIT)
      && Drains(cfg, Ack(cfg, s, c, u, rounds[0]).0, c, u, rounds[1..], s')
  }

  /** The client's loop ends: after r rounds at most n - 500 r rows are pending. */
  lemma {:induction false} ClientLoopEnds(cfg: Config, s: Db, c: ConvId, u: UserId, rounds: seq<seq<MsgId>>, s': Db)
    requires s.IsMember(c, u) && c in s.convs && Drains(cfg, s, c, u, rounds, s')
    ensures |Pending(s', c, u)| == Max(0, |Pending(s, c, u)| - 500 * |rounds|)
    decreases |rounds|
  {
    if rounds != [] {
      PendingRound(cfg, s, c, u, rounds[0]);
      ClientLoopEnds(cfg, Ack(cfg, s, c, u, rounds[0]).0, c, u, rounds[1..], s');
    }
  }

  // ----- threshold 0 -----

  /** The members whose confirmation the documentation asks for when the threshold is 0. */
  function Recipients(s: Db, c: ConvId, id: MsgId): set<CopyKey>
    requires id in s.messages
  {
    set k | k in s.Roster(c) - {MemberKey(c, s.messages[id].sender)} :: CopyKey(id, k.user)
  }

  lemma {:induction false} RecipientsSize(rows: set<MemberKey>, c: ConvId, id: MsgId)
    requires forall k | k in rows :: k.conv == c
    ensures |set k | k in rows :: CopyKey(id, k.user)| == |rows|
  {
    if rows != {} {
      var k :| k in rows;
      RecipientsSize(rows - {k}, c, id);
      assert (set x | x in rows :: CopyKey(id, x.user)) == (set x | x in rows - {k} :: CopyKey(id, x.user)) + {CopyKey(id, k.user)};
    }
  }

  /**
   * Threshold 0 counts heads. The documentation promises that every recipient must confirm;
   * the code purges exactly when confirmations from outside the recipients (the sender, people
   * who have left) are at least as many as the recipients who have not confirmed.
   */
  lemma ThresholdZeroCounts(cfg: Config, s: Db, c: ConvId, id: MsgId)
    requires cfg.ackThreshold == 0 && c in s.convs && s.convs[c].kind != Private && id in s.messages
    ensures
      var missing := |Recipients(s, c, id) - s.AckedBy(id)|;
      var outside := |s.AckedBy(id) - Recipients(s, c, id)|;
      && (MeetsPurgePolicy(cfg, s, c, id) <==> Recipients(s, c, id) != {} && missing <= outside)
      && ((MeetsPurgePolicy(cfg, s, c, id) <==> Recipients(s, c, id) != {} && Recipients(s, c, id) <= s.AckedBy(id))
          <==> !(0 < missing <= outside))
  {
    RecipientsSize(s.Roster(c) - {MemberKey(c, s.messages[id].sender)}, c, id);
    HeadCount(Recipients(s, c, id), s.AckedBy(id));
  }

  lemma HeadCount<T>(need: set<T>, got: set<T>)
    ensures |got| - |need| == |got - need| - |need - got|
    ensures need <= got <==> |need - got| == 0
    ensures need != {} <==> |need| > 0
  {
    assert need == need * got + (need - got);
    assert got == need * got + (got - need);
    assert |need| == |need * got| + |need - got|;
    assert |got| == |need * got| + |got - need|;
    if |need - got| == 0 {
      assert need - got == {};
    }
  }

  /** Who has confirmed the message, and who else belongs to the conversation. */
  function ConfirmedBy(s: Db, id: MsgId): set<UserId> {
    set k | k in s.acks && k.msg == id :: k.user
  }

  function OthersIn(s: Db, c: ConvId, sender: UserId): set<UserId> {
    set k | k in s.members && k.conv == c && k.user != sender :: k.user
  }

  lemma {:induction false} UsersOfCopies(ks: set<CopyKey>, id: MsgId)
    requires forall k | k in ks :: k.msg == id
    ensures |set k | k in ks :: k.user| == |ks|
  {
    if ks != {} {
      var k :| k in ks;
      UsersOfCopies(ks - {k}, id);
      assert (set x | x in ks :: x.user) == (set x | x in ks - {k} :: x.user) + {k.user};
    }
  }

  lemma {:induction false} UsersOfRows(ks: set<MemberKey>, c: ConvId)
    requires forall k | k in ks :: k.conv == c
    ensures |set k | k in ks :: k.user| == |ks|
  {
    if ks != {} {
      var k :| k in ks;
      UsersOfRows(ks - {k}, c);
      assert (set x | x in ks :: x.user) == (set x | x in ks - {k} :: x.user) + {k.user};
    }
  }

  /**
   * When a message may be purged before its time. In a private conversation as soon as anybody
   * confirmed; elsewhere when as many people confirmed as the threshold asks for, or, at
   * threshold 0, as many as there are members besides the sender.
   */
  lemma PolicyMeans(cfg: Config, s: Db, c: ConvId, id: MsgId)
    requires c in s.convs && id in s.messages
    ensures
      var others := OthersIn(s, c, s.messages[id].sender);
      MeetsPurgePolicy(cfg, s, c, id) <==>
        if s.convs[c].kind == Private then exists u :: CopyKey(id, u) in s.acks
        else if cfg.ackThreshold > 0 then |ConfirmedBy(s, id)| >= cfg.ackThreshold
        else others != {} && |ConfirmedBy(s, id)| >= |others|
  {
    var sender := s.messages[id].sender;
    var rows := s.Roster(c) - {MemberKey(c, sender)};
    UsersOfCopies(s.AckedBy(id), id);
    UsersOfRows(rows, c);
    assert ConfirmedBy(s, id) == set k | k in s.AckedBy(id) :: k.user;
    assert OthersIn(s, c, sender) == set k | k in rows :: k.user;
    if u :| CopyKey(id, u) in s.acks {
      assert CopyKey(id, u) in s.AckedBy(id);
    } else {
      assert s.AckedBy(id) == {};
    }
  }

  // ----- the hourly sweep -----

  /** The marked rows stamped before an instant. */
  function StampedBefore(s: Db, c: int): set<MsgId> {
    set id | id in s.messages && s.messages[id].isDestroyed && s.messages[id].destroyedAt.Some?
             && s.messages[id].destroyedAt.value < c
  }

  /**
   * The sweep's own policy never allows more than the confirmation's, and for every threshold of
   * at least 1 the two are the same. At threshold 0 the sweep leaves groups and channels to the
   * confirmation itself and to the deadline.
   */
  lemma SweepPolicyIsAckPolicy(cfg: Config, s: Db, id: MsgId)
    requires id in s.messages && s.messages[id].conv in s.convs
    ensures
      var c := s.messages[id].conv;
      && (SweepPolicy(cfg, s, id) ==> MeetsPurgePolicy(cfg, s, c, id))
      && (cfg.ackThreshold >= 1 || s.convs[c].kind == Private ==> (SweepPolicy(cfg, s, id) <==> MeetsPurgePolicy(cfg, s, c, id)))
      && (cfg.ackThreshold == 0 && s.convs[c].kind != Private ==> !SweepPolicy(cfg, s, id))
  {
  }

  /**
   * A sweep removes only what its policy or the deadline allows, and all of that on its page;
   * so every row it removes met the purge policy or was overdue.
   */
  lemma SweepIsExact(cfg: Config, s: Db, rows: seq<MsgId>, id: MsgId)
    requires Reachable(cfg, s) && Enabled(s, OpSweep(rows)) && id in s.messages
    ensures
      var s' := Step(cfg, s, OpSweep(rows));
      && s.messages[id].conv in s.convs
      && (PhaseOf(s', id) == Purged <==> id in rows && SweepRemoves(cfg, s, id))
      && (PhaseOf(s', id) == Purged ==> MeetsPurgePolicy(cfg, s, s.messages[id].conv, id) || Overdue(cfg, s, id))
      && (PhaseOf(s', id) != Purged ==> PhaseOf(s', id) == PhaseOf(s, id) && s'.AckedBy(id) == s.AckedBy(id))
  {
    hide Consistent, Reachable, SweepPolicy, Overdue, MeetsPurgePolicy, SweepKey, Sweep, SweepPurges, PhaseOf, Page, Db.AckedBy;
    ReachableIsConsistent(cfg, s);
    RowFacts(cfg, s, id);
    SweepPolicyIsAckPolicy(cfg, s, id);
    PagedRow(cfg, s, rows, id);
    SweptRow(cfg, s, rows, id);
  }

  /** Its mark is older than the fallback days, if there are any. */
  predicate IsLongMarked(cfg: Config, s: Db, id: MsgId) {
    && id in s.messages && cfg.ackFallbackDays > 0
    && s.messages[id].destroyedAt.Some? && s.messages[id].destroyedAt.value < s.now - cfg.ackFallbackDays * 24 * 60 * 60 * 1000
  }

  /** Enough people have confirmed it, by the sweep's own count, which leaves threshold 0 to the confirmation. */
  ghost predicate IsConfirmed(cfg: Config, s: Db, id: MsgId) {
    && id in s.messages && s.messages[id].conv in s.convs
    && if s.convs[s.messages[id].conv].kind == Private then exists u :: CopyKey(id, u) in s.acks
       else 0 < cfg.ackThreshold <= |ConfirmedBy(s, id)|
  }

  /** What the sweep's query returns can be purged if the policy or the deadline says so. */
  lemma PagedRow(cfg: Config, s: Db, rows: seq<MsgId>, id: MsgId)
    requires Page(rows, SweepKey(s), SWEEP_BATCH) && id in s.messages && s.messages[id].conv in s.convs
    ensures id in SweepPurges(cfg, s, rows) <==> id in rows && SweepRemoves(cfg, s, id)
  {
    hide SweepRemoves;
    assert id in rows ==> id in SweepKey(s);
  }

  lemma SweptRow(cfg: Config, s: Db, rows: seq<MsgId>, id: MsgId)
    requires id in s.messages
    ensures
      var s' := Sweep(cfg, s, rows);
      if id in SweepPurges(cfg, s, rows) then PhaseOf(s', id) == Purged
      else PhaseOf(s', id) == PhaseOf(s, id) != Purged && s'.AckedBy(id) == s.AckedBy(id)
  {
    hide SweepPurges;
  }

  lemma SweepPolicyMeans(cfg: Config, s: Db, id: MsgId)
    requires id in s.messages && s.messages[id].conv in s.convs
    ensures SweepPolicy(cfg, s, id) <==> IsConfirmed(cfg, s, id)
  {
    PolicyMeans(cfg, s, s.messages[id].conv, id);
    SweepPolicyIsAckPolicy(cfg, s, id);
    hide MeetsPurgePolicy, SweepPolicy, OthersIn, ConfirmedBy;
  }

  lemma RemovalMeans(cfg: Config, s: Db, id: MsgId)
    requires id in s.messages && s.messages[id].conv in s.convs
    ensures SweepRemoves(cfg, s, id) <==> IsConfirmed(cfg, s, id) || IsLongMarked(cfg, s, id)
  {
    SweepPolicyMeans(cfg, s, id);
    hide SweepPolicy, IsConfirmed;
  }

  /** A sweep turns into tombstones exactly the rows of its page that are confirmed or long marked. */
  lemma SweepTakesExactly(cfg: Config, s: Db, rows: seq<MsgId>, id: MsgId)
    requires Reachable(cfg, s) && Enabled(s, OpSweep(rows)) && id in s.messages
    ensures PhaseOf(Step(cfg, s, OpSweep(rows)), id) == Purged <==> id in rows && (IsConfirmed(cfg, s, id) || IsLongMarked(cfg, s, id))
    ensures id in rows ==> s.messages[id].isDestroyed
  {
    assert id in rows ==> id in SweepKey(s);
    hide Reachable, Step, Enabled, PhaseOf, SweepRemoves, IsConfirmed, IsLongMarked, MeetsPurgePolicy, Overdue, SweepKey;
    SweepIsExact(cfg, s, rows, id);
    RemovalMeans(cfg, s, id);
  }

  /** The backlog is what the sweep's query sees under the cutoff. */
  lemma BacklogIsUnderCutoff(cfg: Config, s: Db, c: int)
    requires forall id | id in s.messages :: MessageOk(cfg, s, id)
    ensures StampedBefore(s, c) == set x | x in SweepKey(s) && SweepKey(s)[x] < c
  {
  }

  lemma OverdueRowIsPurged(cfg: Config, s: Db, rows: seq<MsgId>, c: int, id: MsgId)
    requires id in rows && id in StampedBefore(s, c) && s.messages[id].conv in s.convs
    requires cfg.ackFallbackDays > 0 && c <= Cutoff(cfg, s.now)
    ensures id in SweepPurges(cfg, s, rows)
  {
    hide SweepPolicy;
  }

  lemma SweepTakesAway(cfg: Config, s: Db, rows: seq<MsgId>, c: int)
    ensures StampedBefore(Sweep(cfg, s, rows), c) == StampedBefore(s, c) - SweepPurges(cfg, s, rows)
  {
    hide SweepPurges;
  }

  /** A sweep clears everything overdue at any older cutoff, or clears a full batch of it. */
  lemma SweepClearsOrFills(cfg: Config, s: Db, rows: seq<MsgId>, c: int)
    requires Consistent(cfg, s) && Enabled(s, OpSweep(rows))
    requires cfg.ackFallbackDays > 0 && c <= Cutoff(cfg, s.now)
    ensures
      var s' := Step(cfg, s, OpSweep(rows));
      && StampedBefore(s', c) <= StampedBefore(s, c)
      && |StampedBefore(s', c)| <= Max(0, |StampedBefore(s, c)| - SWEEP_BATCH)
  {
    hide Consistent, SweepPurges, StampedBefore, SweepKey, Sweep, MessageOk, Page, Distinct;
    forall id | id in s.messages ensures MessageOk(cfg, s, id) {
      RowFacts(cfg, s, id);
    }
    var s', backlog := Sweep(cfg, s, rows), StampedBefore(s, c);
    BacklogIsUnderCutoff(cfg, s, c);
    PageThreshold(rows, SweepKey(s), SWEEP_BATCH, c);
    PageIsDistinct(rows, SweepKey(s), SWEEP_BATCH);
    SweepTakesAway(cfg, s, rows, c);
    forall id | id in Ids(rows) * backlog ensures id in SweepPurges(cfg, s, rows) {
      BacklogRow(cfg, s, c, id);
      OverdueRowIsPurged(cfg, s, rows, c, id);
    }
    TakeAway(backlog, rows, StampedBefore(s', c), SWEEP_BATCH);
  }

  lemma PageIsDistinct<T>(rows: seq<T>, key: map<T, int>, limit: nat)
    requires Page(rows, key, limit)
    ensures Distinct(rows)
  {
  }

  lemma BacklogRow(cfg: Config, s: Db, c: int, id: MsgId)
    requires Consistent(cfg, s) && id in StampedBefore(s, c)
    ensures id in s.messages && s.messages[id].conv in s.convs
  {
    assert MessageOk(cfg, s, id);
  }

  lemma TakeAway<T>(all: set<T>, rows: seq<T>, left: set<T>, batch: nat)
    requires Distinct(rows) && left <= all - Ids(rows)
    requires all <= Ids(rows) || (|rows| == batch && Ids(rows) <= all)
    ensures left <= all && |left| <= Max(0, |all| - batch)
  {
    DistinctSize(rows);
    SubsetSize(left, all - Ids(rows));
    if all <= Ids(rows) {
      assert all - Ids(rows) == {};
    } else {
      assert all == (all - Ids(rows)) + Ids(rows);
    }
  }

  /** No step stamps a row in the past, so the overdue backlog only shrinks. */
  lemma BacklogOnlyShrinks(cfg: Config, s: Db, s': Db, c: int)
    requires Consistent(cfg, s) && Safe(cfg, s, s') && c <= s.now
    ensures StampedBefore(s', c) <= StampedBefore(s, c)
  {
    forall id | id in StampedBefore(s', c) ensures id in StampedBefore(s, c) {
      assert MessageOk(cfg, s', id);
      if id in s.messages {
        assert MessageEvolves(s, s', id);
        assert MessageOk(cfg, s, id);
      }
    }
  }

  function Sweeps(ops: seq<Op>): nat {
    if ops == [] then 0 else (if ops[0].OpSweep? then 1 else 0) + Sweeps(ops[1..])
  }

  lemma BacklogStep(cfg: Config, s: Db, op: Op, c: int)
    requires Consistent(cfg, s) && Enabled(s, op)
    requires cfg.ackFallbackDays > 0 && c <= Cutoff(cfg, s.now)
    ensures Safe(cfg, s, Step(cfg, s, op))
    ensures s.now <= Step(cfg, s, op).now
    ensures |StampedBefore(Step(cfg, s, op), c)| <= Max(0, |StampedBefore(s, c)| - SWEEP_BATCH * Sweeps([op]))
  {
    hide Consistent, Evolves, Step, Enabled, StampedBefore;
    StepIsSafe(cfg, s, op);
    ClockMoves(cfg, s, Step(cfg, s, op));
    BacklogOnlyShrinks(cfg, s, Step(cfg, s, op), c);
    SubsetSize(StampedBefore(Step(cfg, s, op), c), StampedBefore(s, c));
    assert [op][1..] == [];
    if op.OpSweep? {
      SweepClearsOrFills(cfg, s, op.rows, c);
    }
  }

  /**
   * Sweep progress over whole runs. Fix the cutoff of this moment: however sends, reveals,
   * marks, confirmations and the clock interleave with them, n sweeps leave at most
   * k - 200 n of the k rows that are overdue now.
   */
  lemma {:induction false} SweepProgress(cfg: Config, s: Db, ops: seq<Op>, c: int)
    requires Consistent(cfg, s) && Run(cfg, s, ops)
    requires cfg.ackFallbackDays > 0 && c <= Cutoff(cfg, s.now)
    ensures |StampedBefore(Exec(cfg, s, ops), c)| <= Max(0, |StampedBefore(s, c)| - 200 * Sweeps(ops))
    decreases |ops|
  {
    hide Consistent, Step, Enabled, StampedBefore;
    if ops != [] {
      BacklogStep(cfg, s, ops[0], c);
      SweepProgress(cfg, Step(cfg, s, ops[0]), ops[1..], c);
      assert [ops[0]][1..] == [];
    }
  }

  /** Enough sweeps, and nothing that is overdue now is left. */
  lemma OverdueRowsGo(cfg: Config, s: Db, ops: seq<Op>, id: MsgId)
    requires Reachable(cfg, s) && Run(cfg, s, ops)
    requires id in s.messages && s.messages[id].isDestroyed && Overdue(cfg, s, id)
    requires SWEEP_BATCH * Sweeps(ops) >= |StampedBefore(s, Cutoff(cfg, s.now))|
    ensures PhaseOf(Exec(cfg, s, ops), id) == Purged
  {
    var c, s' := Cutoff(cfg, s.now), Exec(cfg, s, ops);
    ReachableIsConsistent(cfg, s);
    SweepProgress(cfg, s, ops, c);
    Conservation(cfg, s, ops, id);
    hide Consistent, Reachable, Exec, Run;
    assert StampedBefore(s', c) == {};
    assert id !in StampedBefore(s', c);
  }
}
