/** destroy.service.ts and burn.scheduler.ts: marking, confirming and purging. */
module DestroyServices {
  import opened Prelude
  import opened Query
  import opened Grouping
  import opened ChatDb
  import opened BurnSpec
  import opened Runs
  import opened Tables
  import PurgeTheorems

  /** A row of the sweep's query. */
  datatype SweepRow = SweepRow(id: MsgId, convType: ConversationKind, ackCount: nat, destroyedAt: Option<Millis>)

  ghost predicate Describes(s: Db, r: SweepRow, id: MsgId) {
    && id in s.messages && s.messages[id].conv in s.convs
    && r == SweepRow(id, s.convs[s.messages[id].conv].kind, |s.AckedBy(id)|, s.messages[id].destroyedAt)
  }

  class DestroyService {
    const db: Database
    const cfg: Config

    constructor (db: Database, cfg: Config)
      ensures this.db == db && this.cfg == cfg
    {
      this.db, this.cfg := db, cfg;
    }

    method ListPending(c: ConvId, u: UserId) returns (r: Result<seq<MsgId>>)
      ensures r == Err(Forbidden) <==> !db.HasMember(c, u)
      ensures r.Err? ==> r.error == Forbidden
      ensures r.Ok? ==> Page(r.value, PendingKey(db.Snapshot(), c, u), PENDING_LIMIT)
    {
      if !db.HasMember(c, u) {
        return Err(Forbidden);
      }
      var rows := Fetch(PendingKey(db.Snapshot(), c, u), PENDING_LIMIT);
      r := Ok(rows);
    }

    method MeetsPurgePolicy(c: ConvId, kind: ConversationKind, id: MsgId) returns (met: bool)
      requires c in db.convs && kind == db.convs[c].kind
      ensures met == BurnSpec.MeetsPurgePolicy(cfg, db.Snapshot(), c, id)
    {
      var ackCount := |db.Snapshot().AckedBy(id)|;
      if kind == Private {
        return ackCount >= 1;
      }
      if cfg.ackThreshold >= 1 {
        return ackCount >= cfg.ackThreshold;
      }
      if id !in db.messages {
        return true;
      }
      var need := |db.Snapshot().Roster(c) - {MemberKey(c, db.messages[id].sender)}|;
      return need > 0 && ackCount >= need;
    }

    /** The only physical deletion: one transaction over five tables. */
    method Purge(id: MsgId) returns (purged: bool)
      modifies db
      ensures purged <==> id in old(db.messages) && old(db.messages)[id].isDestroyed
      ensures db.Snapshot() == if purged then PurgeRows(old(db.Snapshot()), {id}) else old(db.Snapshot())
    {
      hide PurgeRows;
      if id !in db.messages || !db.messages[id].isDestroyed {
        return false;
      }
      var msg := db.messages[id];
      var destroyedAt := if msg.destroyedAt.Some? then msg.destroyedAt.value else db.now;
      var reason := if msg.destroyReason.Some? then msg.destroyReason.value else Manual;
      db.tombstones := db.tombstones[id := Tombstone(msg.conv, msg.sender, msg.kind, msg.createdAt, destroyedAt, reason)];
      db.acks := set k | k in db.acks && k.msg != id;
      db.receipts := map k | k in db.receipts && k.msg != id :: db.receipts[k];
      db.messages := map x | x in db.messages ::
        if db.messages[x].replyTo == Some(id) then db.messages[x].(replyTo := None) else db.messages[x];
      db.messages := db.messages - {id};
      PurgeTables(old(db.Snapshot()), id);
      return true;
    }

    /** What purging one row does to each table. */
    lemma PurgeTables(s: Db, id: MsgId)
      requires id in s.messages
      ensures
        var s', m := PurgeRows(s, {id}), s.messages[id];
        && s' == s.(tombstones := s'.tombstones, acks := s'.acks, receipts := s'.receipts, messages := s'.messages)
        && s'.tombstones == s.tombstones[id :=
             Tombstone(m.conv, m.sender, m.kind, m.createdAt,
                       if m.destroyedAt.Some? then m.destroyedAt.value else s.now,
                       if m.destroyReason.Some? then m.destroyReason.value else Manual)]
        && s'.acks == (set k | k in s.acks && k.msg != id)
        && s'.receipts == (map k | k in s.receipts && k.msg != id :: s.receipts[k])
        && s'.messages == (map x | x in s.messages ::
             if s.messages[x].replyTo == Some(id) then s.messages[x].(replyTo := None) else s.messages[x]) - {id}
    {
    }

    // ----- ack -----

    /** The confirmation records, one upsert per listed row. */
    method UpsertAcks(ids: seq<MsgId>, found: set<MsgId>, u: UserId)
      modifies db
      ensures db.Snapshot() == RecordAcks(old(db.Snapshot()), (set id | id in ids && id in found), u)
    {
      for i := 0 to |ids|
        invariant db.Snapshot() == RecordAcks(old(db.Snapshot()), (set id | id in ids[..i] && id in found), u)
      {
        assert ids[..i + 1] == ids[..i] + [ids[i]];
        if ids[i] in found {
          db.acks := db.acks + {CopyKey(ids[i], u)};
        }
      }
      assert ids[..|ids|] == ids;
    }

    /** The policy check and the purge, row by row: each purge happens before the next check. */
    method PurgeConfirmed(c: ConvId, ids: seq<MsgId>, found: set<MsgId>) returns (purgedIds: seq<MsgId>)
      requires c in db.convs && Distinct(ids)
      requires forall id | id in found :: id in db.messages && db.messages[id].isDestroyed
      modifies db
      ensures
        var purged := set id | id in ids && id in found && BurnSpec.MeetsPurgePolicy(cfg, old(db.Snapshot()), c, id);
        && purged <= old(db.messages).Keys
        && db.Snapshot() == PurgeRows(old(db.Snapshot()), purged)
        && Ids(purgedIds) == purged && Distinct(purgedIds)
    {
      hide PurgeRows, BurnSpec.MeetsPurgePolicy;
      ghost var s := db.Snapshot();
      var kind := db.convs[c].kind;
      purgedIds := [];
      assert Ids(purgedIds) == {};
      PurgeTheorems.PurgeNothing(s);
      for i := 0 to |ids|
        invariant Ids(purgedIds) == set id | id in ids[..i] && id in found && BurnSpec.MeetsPurgePolicy(cfg, s, c, id)
        invariant Ids(purgedIds) <= s.messages.Keys && db.Snapshot() == PurgeRows(s, Ids(purgedIds))
        invariant Distinct(purgedIds)
      {
        var id := ids[i];
        assert ids[..i + 1] == ids[..i] + [id] && id !in ids[..i];
        assert id !in Ids(purgedIds);
        PurgeStep(s, Ids(purgedIds), c, id, id in found);
        if id !in found {
          continue;
        }
        assert db.convs == s.convs;
        var shouldPurge := MeetsPurgePolicy(c, kind, id);
        if shouldPurge {
          var done := Purge(id);
          assert Ids(purgedIds + [id]) == Ids(purgedIds) + {id};
          purgedIds := purgedIds + [id];
        }
      }
      assert ids[..|ids|] == ids;
    }

    /** One turn of the loop, from the state in which `done` has been purged already. */
    lemma PurgeStep(s: Db, done: set<MsgId>, c: ConvId, id: MsgId, listed: bool)
      requires done <= s.messages.Keys && c in s.convs && id !in done
      requires listed ==> id in s.messages && s.messages[id].isDestroyed
      ensures PurgeRows(s, done).convs == s.convs
      ensures listed ==>
                && BurnSpec.MeetsPurgePolicy(cfg, PurgeRows(s, done), c, id) == BurnSpec.MeetsPurgePolicy(cfg, s, c, id)
                && id in PurgeRows(s, done).messages && PurgeRows(s, done).messages[id].isDestroyed
                && PurgeRows(PurgeRows(s, done), {id}) == PurgeRows(s, done + {id})
    {
      if listed {
        PurgeTheorems.PolicySurvivesPurge(cfg, s, done, c, id);
        PurgeTheorems.PurgeOneMore(s, done, id);
      }
    }

    method Ack(c: ConvId, u: UserId, messageIds: seq<MsgId>) returns (r: Result<AckResult>, purgedIds: seq<MsgId>)
      modifies db
      ensures Performs(cfg, old(db.Snapshot()), OpAck(c, u, messageIds), db.Snapshot())
      ensures r == BurnSpec.Ack(cfg, old(db.Snapshot()), c, u, messageIds).1
      ensures r.Ok? ==> Distinct(purgedIds) && Ids(purgedIds) == r.value.purgedIds
    {
      purgedIds := [];
      hide Dedup, PurgeRows, BurnSpec.MeetsPurgePolicy;
      ghost var s := db.Snapshot();
      var ids := Dedup(messageIds);
      SameList(s, c, messageIds);
      if !db.HasMember(c, u) {
        return Err(Forbidden), [];
      }
      if |ids| == 0 {
        return Ok(AckResult(0, {})), [];
      }
      if c !in db.convs {
        return Err(BadRequest), [];
      }
      var found := Listed(db.Snapshot(), c, ids);
      for i := 0 to |ids|
        invariant forall j | 0 <= j < i && ids[j] in found :: db.messages[ids[j]].isDestroyed
      {
        if ids[i] in found && !db.messages[ids[i]].isDestroyed {
          return Err(BadRequest), [];
        }
      }
      assert forall id | id in found :: id in ids && db.messages[id].isDestroyed;
      assert (set id | id in ids && id in found) == found == Listed(s, c, messageIds);
      UpsertAcks(ids, found, u);
      ghost var s1 := db.Snapshot();
      assert s1 == RecordAcks(s, found, u);
      purgedIds := PurgeConfirmed(c, ids, found);
      assert Ids(purgedIds) == AckPurges(cfg, s, c, u, messageIds);
      r := Ok(AckResult(|found|, Ids(purgedIds)));
    }

    lemma SameList(s: Db, c: ConvId, ids: seq<MsgId>)
      ensures Listed(s, c, Dedup(ids)) == Listed(s, c, ids)
      ensures |Dedup(ids)| == 0 <==> ids == []
      ensures Distinct(Dedup(ids))
    {
      assert forall id :: id in Dedup(ids) <==> id in Ids(Dedup(ids));
      assert forall id :: id in ids <==> id in Ids(ids);
      if ids != [] {
        assert ids[0] in Ids(ids);
      }
    }

    // ----- the hourly sweep -----

    /** The rows of the sweep's query, with the joined columns as they were when it ran. */
    method SelectSweep() returns (page: seq<SweepRow>, ghost rows: seq<MsgId>)
      ensures Page(rows, SweepKey(db.Snapshot()), SWEEP_BATCH)
      ensures |page| == |rows| && forall i | 0 <= i < |rows| :: Describes(db.Snapshot(), page[i], rows[i])
    {
      var ids := Fetch(SweepKey(db.Snapshot()), SWEEP_BATCH);
      assert forall id | id in ids :: id in SweepKey(db.Snapshot());
      page := seq(|ids|, i requires 0 <= i < |ids| reads db requires ids[i] in db.messages && db.messages[ids[i]].conv in db.convs =>
        SweepRow(ids[i], db.convs[db.messages[ids[i]].conv].kind, |db.Snapshot().AckedBy(ids[i])|, db.messages[ids[i]].destroyedAt));
      rows := ids;
    }

    /** One purge more: the loop has dealt with the rows before number `i`. */
    lemma SweepTurn(s: Db, rows: seq<MsgId>, i: nat)
      requires Page(rows, SweepKey(s), SWEEP_BATCH) && i < |rows|
      ensures
        var id, done := rows[i], SweepPurges(cfg, s, rows[..i]);
        && id in s.messages && s.messages[id].conv in s.convs && s.messages[id].isDestroyed && id !in done
        && id in PurgeRows(s, done).messages && PurgeRows(s, done).messages[id].isDestroyed
        && PurgeRows(PurgeRows(s, done), {id}) == PurgeRows(s, done + {id})
        && SweepPurges(cfg, s, rows[..i + 1]) == done + (if SweepRemoves(cfg, s, id) then {id} else {})
        && SweepPurges(cfg, s, rows[..i + 1]) <= s.messages.Keys
    {
      hide SweepRemoves, SweepPurges, SweepKey, PurgeRows, Page;
      var id, done := rows[i], SweepPurges(cfg, s, rows[..i]);
      SweepSetTurn(s, rows, i);
      PurgeTheorems.PurgeOneMore(s, done, id);
      StillMarked(s, done, id);
    }

    lemma SweepSetTurn(s: Db, rows: seq<MsgId>, i: nat)
      requires Page(rows, SweepKey(s), SWEEP_BATCH) && i < |rows|
      ensures
        var id, done := rows[i], SweepPurges(cfg, s, rows[..i]);
        && id in s.messages && s.messages[id].conv in s.convs && s.messages[id].isDestroyed && id !in done
        && done <= s.messages.Keys
        && SweepPurges(cfg, s, rows[..i + 1]) == done + (if SweepRemoves(cfg, s, id) then {id} else {})
    {
      hide SweepRemoves;
      var id := rows[i];
      assert rows[..i + 1] == rows[..i] + [id] && id !in rows[..i];
      assert id in SweepKey(s);
    }

    lemma StillMarked(s: Db, done: set<MsgId>, id: MsgId)
      requires done <= s.messages.Keys && id in s.messages && id !in done
      ensures id in PurgeRows(s, done).messages && PurgeRows(s, done).messages[id].isDestroyed == s.messages[id].isDestroyed
    {
    }

    lemma CountTurn(s: Db, rows: seq<MsgId>, i: nat)
      requires Page(rows, SweepKey(s), SWEEP_BATCH) && i < |rows|
      ensures rows[i] in s.messages && s.messages[rows[i]].conv in s.convs
      ensures |SweepPurges(cfg, s, rows[..i + 1])| == |SweepPurges(cfg, s, rows[..i])| + (if SweepRemoves(cfg, s, rows[i]) then 1 else 0)
      ensures |Confirmed(s, rows[..i + 1])| == |Confirmed(s, rows[..i])| + (if SweepPolicy(cfg, s, rows[i]) then 1 else 0)
    {
      hide PurgeRows, SweepPolicy, SweepPurges, SweepKey, SweepRemoves, Page, Confirmed;
      SweepTurn(s, rows, i);
      ConfirmedTurn(s, rows[..i], rows[i], rows[..i + 1]);
    }

    lemma ConfirmedTurn(s: Db, before: seq<MsgId>, id: MsgId, after: seq<MsgId>)
      requires id in s.messages && s.messages[id].conv in s.convs && id !in SweepPurges(cfg, s, before)
      requires SweepPurges(cfg, s, after) == SweepPurges(cfg, s, before) + (if SweepRemoves(cfg, s, id) then {id} else {})
      ensures |Confirmed(s, after)| == |Confirmed(s, before)| + (if SweepPolicy(cfg, s, id) then 1 else 0)
    {
      hide SweepPolicy, Overdue, SweepPurges;
      assert Confirmed(s, after) == Confirmed(s, before) + (if SweepPolicy(cfg, s, id) then {id} else {});
    }

    /** The removed rows that were confirmed well enough. */
    ghost function Confirmed(s: Db, rows: seq<MsgId>): set<MsgId> {
      set id | id in SweepPurges(cfg, s, rows) && SweepPolicy(cfg, s, id)
    }

    predicate PolicyMet(r: SweepRow) {
      if r.convType == Private then r.ackCount >= 1
      else if cfg.ackThreshold >= 1 then r.ackCount >= cfg.ackThreshold
      else false
    }

    predicate TimedOut(r: SweepRow, now: Millis) {
      cfg.ackFallbackDays > 0 && r.destroyedAt.Some? && r.destroyedAt.value < now - cfg.ackFallbackDays * DAY
    }

    /** Every removed row is counted once: as confirmed, or else as timed out. */
    method PurgeConfirmedOrExpired() returns (acked: nat, expired: nat, ghost rows: seq<MsgId>)
      modifies db
      ensures Performs(cfg, old(db.Snapshot()), OpSweep(rows), db.Snapshot())
      ensures acked + expired == |SweepPurges(cfg, old(db.Snapshot()), rows)|
      ensures acked == |Confirmed(old(db.Snapshot()), rows)|
    {
      hide PurgeRows, SweepPurges, SweepKey, Page, Confirmed;
      ghost var s := db.Snapshot();
      var page;
      page, rows := SelectSweep();
      var now := db.now;
      acked, expired := 0, 0;
      SweepNothing(s, rows);
      for i := 0 to |page|
        invariant SweepPurges(cfg, s, rows[..i]) <= s.messages.Keys
        invariant db.Snapshot() == PurgeRows(s, SweepPurges(cfg, s, rows[..i]))
        invariant acked + expired == |SweepPurges(cfg, s, rows[..i])|
        invariant acked == |Confirmed(s, rows[..i])|
      {
        var r := page[i];
        SweepTurn(s, rows, i);
        CountTurn(s, rows, i);
        assert Describes(s, r, rows[i]);
        if PolicyMet(r) {
          var done := Purge(r.id);
          if done {
            acked := acked + 1;
          }
        } else if TimedOut(r, now) {
          var done := Purge(r.id);
          if done {
            expired := expired + 1;
          }
        }
      }
      assert rows[..|rows|] == rows;
    }

    lemma SweepNothing(s: Db, rows: seq<MsgId>)
      ensures s == PurgeRows(s, SweepPurges(cfg, s, rows[..0]))
      ensures SweepPurges(cfg, s, rows[..0]) == {} && Confirmed(s, rows[..0]) == {}
    {
      PurgeTheorems.PurgeNothing(s);
    }
  }

  /** The conversation's messages that one broadcast announces as burned. */
  datatype Broadcast = Broadcast(reason: DestroyReason, byConv: map<ConvId, seq<MsgId>>)

  class BurnScheduler {
    const db: Database
    const destroyService: DestroyService

    constructor (db: Database, destroyService: DestroyService)
      requires destroyService.db == db
      ensures this.db == db && this.destroyService == destroyService
    {
      this.db, this.destroyService := db, destroyService;
    }

    /** `eligible` is the WHERE clause of the rule: the rows it matches, with their sort key. */
    method MarkBatch(reason: DestroyReason, eligible: map<MsgId, int>)
      returns (marked: nat, broadcast: Broadcast, rows: seq<MsgId>)
      requires eligible.Keys <= db.messages.Keys
      modifies db
      ensures Page(rows, eligible, MARK_BATCH) && marked == |rows|
      ensures db.Snapshot() == MarkRows(old(db.Snapshot()), Ids(rows), old(db.now), reason)
      ensures broadcast.reason == reason
      ensures forall id | id in rows :: id in old(db.messages) && old(db.messages)[id].conv in broadcast.byConv
      ensures
        var convOf := map id | id in rows :: old(db.messages)[id].conv;
        forall c | c in broadcast.byConv :: BroadcastOf(broadcast.byConv[c], rows, convOf, c)
    {
      hide Page, Bucket, BroadcastOf;
      rows := Fetch(eligible, MARK_BATCH);
      PageRows(rows, eligible);
      var convOf := map id | id in rows :: db.messages[id].conv;
      UpdateMarked(rows, reason);
      var byConv := GroupBy(rows, convOf);
      broadcast := Broadcast(reason, byConv);
      marked := |rows|;
    }

    lemma PageRows(rows: seq<MsgId>, key: map<MsgId, int>)
      requires Page(rows, key, MARK_BATCH)
      ensures Distinct(rows) && forall r | r in rows :: r in key
    {
    }

    /** The guarded UPDATE: rows that something else marked first keep their stamp. */
    method UpdateMarked(ids: seq<MsgId>, reason: DestroyReason)
      modifies db
      ensures db.Snapshot() == MarkRows(old(db.Snapshot()), Ids(ids), old(db.now), reason)
    {
      var now := db.now;
      db.messages := map id | id in db.messages ::
        if id in ids && !db.messages[id].isDestroyed then
          db.messages[id].(isDestroyed := true, destroyedAt := Some(now), destroyReason := Some(reason))
        else
          db.messages[id];
      assert db.messages == MarkRows(old(db.Snapshot()), Ids(ids), now, reason).messages;
    }

    /** The minute tick: rule R1, then rule R2 on what R1 left. */
    method MarkDestroyed() returns (total: nat, ghost rows1: seq<MsgId>, ghost rows2: seq<MsgId>)
      requires destroyService.db == db
      modifies db
      ensures Performs(destroyService.cfg, old(db.Snapshot()), OpMarkDestroyed(rows1, rows2), db.Snapshot())
      ensures total == |rows1| + |rows2|
    {
      hide MarkRows, R1, R2, Page;
      var n1, sent1, first := MarkBatch(FallbackExpired, R1Key(db.Snapshot()));
      var n2, sent2, second := MarkBatch(AllRead, R2Key(db.Snapshot()));
      rows1, rows2, total := first, second, n1 + n2;
      SameClock(old(db.Snapshot()), Ids(rows1));
    }

    lemma SameClock(s: Db, rows: set<MsgId>)
      ensures MarkRows(s, rows, s.now, FallbackExpired).now == s.now
    {
    }

    method PurgeSweep() returns (ghost rows: seq<MsgId>)
      requires destroyService.db == db
      modifies db
      ensures Performs(destroyService.cfg, old(db.Snapshot()), OpSweep(rows), db.Snapshot())
    {
      var acked, expired;
      acked, expired, rows := destroyService.PurgeConfirmedOrExpired();
    }
  }

  class AdminMessageService {
    const db: Database
    const cfg: Config

    constructor (db: Database, cfg: Config)
      ensures this.db == db && this.cfg == cfg
    {
      this.db, this.cfg := db, cfg;
    }

    /** The outcome says whether the message was marked already. */
    method ManualDestroy(id: MsgId) returns (already: Result<bool>)
      modifies db
      ensures Performs(cfg, old(db.Snapshot()), OpManualDestroy(id), db.Snapshot())
      ensures already == if id !in old(db.messages) then Err(NotFound) else Ok(old(db.messages)[id].isDestroyed)
    {
      if id !in db.messages {
        return Err(NotFound);
      }
      ghost var s := db.Snapshot();
      var msg := db.messages[id];
      if !msg.isDestroyed {
        db.messages := db.messages[id :=
          msg.(isDestroyed := true, destroyedAt := Some(db.now), destroyReason := Some(Manual))];
      }
      assert db.messages == MarkRows(s, {id}, s.now, Manual).messages;
      return Ok(msg.isDestroyed);
    }
  }
}
