/** The minute tick: exact batches, and rule R1 with its SELECT and its UPDATE pulled apart. */
module MarkTheorems {
  import opened Prelude
  import opened Query
  import opened ChatDb
  import opened BurnSpec
  import opened Runs
  import opened ChatInvariant

  /** One batch over R1 takes the eligible count from n to max(0, n - 500) and moves nothing else. */
  lemma R1BatchIsExact(s: Db, rows: seq<MsgId>)
    requires Page(rows, R1Key(s), MARK_BATCH)
    ensures
      var s' := AfterR1(s, rows);
      && R1Key(s').Keys == R1Key(s).Keys - Ids(rows)
      && |R1Key(s')| == Max(0, |R1Key(s)| - 500)
      && (forall id | id in s.messages ::
            s'.messages[id] == if id in rows then Marked(s.messages[id], s.now, FallbackExpired) else s.messages[id])
      && (forall id | id in rows :: id in s.messages && R1(s, id))
  {
    var s' := AfterR1(s, rows);
    PageTakes(rows, R1Key(s), MARK_BATCH);
    forall id | id in rows ensures id in R1Key(s) {}
    assert R1Key(s').Keys == R1Key(s).Keys - Ids(rows);
    assert |R1Key(s')| == |R1Key(s').Keys|;
  }

  /** A receipt of somebody other than the sender. */
  predicate OthersReceipt(s: Db, id: MsgId, k: CopyKey) {
    k in s.receipts && k.msg == id && id in s.messages && k.user != s.messages[id].sender
  }

  predicate OpenedAndOver(s: Db, k: CopyKey) {
    k in s.receipts && s.receipts[k].revealedAt.Some? && s.receipts[k].burnAt.Some? && s.receipts[k].burnAt.value <= s.now
  }

  /** Somebody else has a receipt, and everybody else has opened the message and run out of time. */
  predicate EverybodyElseIsDone(s: Db, id: MsgId) {
    && (exists k | k in s.receipts :: OthersReceipt(s, id, k))
    && (forall k | k in s.receipts :: OthersReceipt(s, id, k) ==> OpenedAndOver(s, k))
  }

  /** What rule R2 says of a row and its receipts. */
  lemma R2Means(s: Db, id: MsgId)
    requires id in s.messages
    ensures R2(s, id) <==> !s.messages[id].isDestroyed && s.messages[id].burnTtl.Some? && EverybodyElseIsDone(s, id)
  {
    assert forall k | k in s.receipts :: Counts(s, id, k) <==> OthersReceipt(s, id, k);
  }

  lemma R2PageMeans(s: Db, rows: seq<MsgId>)
    requires Page(rows, R2Key(s), MARK_BATCH)
    ensures forall id | id in rows ::
              id in s.messages && !s.messages[id].isDestroyed && s.messages[id].burnTtl.Some? && EverybodyElseIsDone(s, id)
  {
    forall id | id in rows ensures id in s.messages && R2(s, id) && EverybodyElseIsDone(s, id) {
      assert id in R2Key(s);
      R2Means(s, id);
      hide R2, EverybodyElseIsDone;
    }
  }

  /** The same for rule R2: marking one message never makes another eligible or ineligible. */
  lemma R2BatchIsExact(s: Db, rows: seq<MsgId>)
    requires Page(rows, R2Key(s), MARK_BATCH)
    ensures
      var s' := MarkRows(s, Ids(rows), s.now, AllRead);
      && R2Key(s').Keys == R2Key(s).Keys - Ids(rows)
      && |R2Key(s')| == Max(0, |R2Key(s)| - 500)
      && (forall id | id in rows ::
            id in s.messages && !s.messages[id].isDestroyed && s.messages[id].burnTtl.Some? && EverybodyElseIsDone(s, id))
      && (forall id | id in s.messages ::
            s'.messages[id] == if id in rows then Marked(s.messages[id], s.now, AllRead) else s.messages[id])
  {
    hide R2, EverybodyElseIsDone;
    var s' := MarkRows(s, Ids(rows), s.now, AllRead);
    PageTakes(rows, R2Key(s), MARK_BATCH);
    R2PageMeans(s, rows);
    forall id | id in rows ensures id in R2Key(s) {}
    R2AfterMark(s, rows);
    assert R2Key(s').Keys == R2Key(s).Keys - Ids(rows);
    assert |R2Key(s')| == |R2Key(s').Keys|;
  }

  lemma R2AfterMark(s: Db, rows: seq<MsgId>)
    ensures forall id | id in s.messages :: R2(MarkRows(s, Ids(rows), s.now, AllRead), id) <==> R2(s, id) && id !in rows
  {
    var s' := MarkRows(s, Ids(rows), s.now, AllRead);
    forall id | id in s.messages ensures R2(s', id) <==> R2(s, id) && id !in rows {
      R2IsLocal(s, s', id);
      hide R2;
    }
  }

  lemma R2IsLocal(s: Db, s': Db, id: MsgId)
    requires id in s.messages && id in s'.messages
    requires s'.receipts == s.receipts && s'.now == s.now
    requires s'.messages[id].sender == s.messages[id].sender && s'.messages[id].burnTtl == s.messages[id].burnTtl
    requires s.messages[id].isDestroyed ==> s'.messages[id].isDestroyed
    ensures R2(s', id) <==> R2(s, id) && !s'.messages[id].isDestroyed
  {
    assert forall k | k in s.receipts :: Counts(s', id, k) == Counts(s, id, k);
  }

  /** The tick as a whole: every eligible message is stamped now, with the reason of the first rule that took it. */
  lemma TickIsExact(s: Db, rows1: seq<MsgId>, rows2: seq<MsgId>, id: MsgId)
    requires Enabled(s, OpMarkDestroyed(rows1, rows2)) && id in s.messages
    ensures
      var m' := MarkDestroyed(s, rows1, rows2).messages[id];
      if id in rows1 then
        R1(s, id) && m' == Marked(s.messages[id], s.now, FallbackExpired)
      else if id in rows2 then
        R2(s, id) && m' == Marked(s.messages[id], s.now, AllRead)
      else
        m' == s.messages[id]
  {
    var s1 := AfterR1(s, rows1);
    if id in rows1 {
      assert id in R1Key(s);
    } else if id in rows2 {
      assert id in R2Key(s1);
      R2IsLocal(s, s1, id);
    }
  }

  /**
   * Rule R1 selects at one moment and updates at a later one. Whatever other requests run in
   * between, each selected row is by then purged, marked by somebody else, or expired against
   * the clock of the update; the guarded update stamps only expired rows and overwrites no stamp.
   */
  lemma R1SelectThenUpdate(cfg: Config, s: Db, rows: seq<MsgId>, ops: seq<Op>, id: MsgId)
    requires Reachable(cfg, s) && Page(rows, R1Key(s), MARK_BATCH) && Run(cfg, s, ops)
    requires id in Exec(cfg, s, ops).messages
    ensures
      var s' := Exec(cfg, s, ops);
      var m, m' := s'.messages[id], MarkRows(s', Ids(rows), s.now, FallbackExpired).messages[id];
      && (id in rows ==> id in s.messages && Gone(m, s'.now))
      && (m.isDestroyed || id !in rows ==> m' == m)
      && (!m.isDestroyed && id in rows ==>
            m.Expired(s'.now) && m' == Marked(m, s.now, FallbackExpired) && m.createdAt <= s.now)
  {
    var s' := Exec(cfg, s, ops);
    if id in rows {
      assert id in R1Key(s);
      hide Consistent, Evolves, Reachable, Exec, Run, R1Key, Page;
      ReachableIsConsistent(cfg, s);
      RunIsSafe(cfg, s, ops);
      RowFacts(cfg, s, id);
      RowMoves(cfg, s, s', id);
    }
  }
}
