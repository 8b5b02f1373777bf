/** Which messages a tick marks, said of the rows and receipts alone. */
module TickTheorems {
  import opened Prelude
  import opened Query
  import opened ChatDb
  import opened BurnSpec
  import opened Runs
  import opened MarkTheorems
  import opened BurnTheorems

  /** Live, and its own deadline has passed. */
  predicate HasExpired(s: Db, id: MsgId) {
    && id in s.messages && !s.messages[id].isDestroyed
    && s.messages[id].destroyAt.Some? && s.messages[id].destroyAt.value <= s.now
  }

  /** A live burn message, its deadline ahead, that everybody else has read out. */
  predicate IsReadOut(s: Db, id: MsgId) {
    && id in s.messages && !s.messages[id].isDestroyed && s.messages[id].burnTtl.Some? && !HasExpired(s, id)
    && EverybodyElseIsDone(s, id)
  }

  function ExpiredRows(s: Db): set<MsgId> {
    set id | id in s.messages && HasExpired(s, id)
  }

  function ReadOutRows(s: Db): set<MsgId> {
    set id | id in s.messages && IsReadOut(s, id)
  }

  lemma R1Means(s: Db, id: MsgId)
    requires id in s.messages
    ensures R1(s, id) <==> HasExpired(s, id)
  {
  }

  lemma R1Rows(s: Db)
    ensures R1Key(s).Keys == ExpiredRows(s)
  {
    forall id | id in s.messages ensures R1(s, id) <==> HasExpired(s, id) {
      R1Means(s, id);
    }
    hide R1, HasExpired;
  }

  /** If the first batch takes every expired row, the second one selects from the read-out ones. */
  lemma R2Rows(s: Db, rows1: seq<MsgId>)
    requires Ids(rows1) == ExpiredRows(s)
    ensures R2Key(AfterR1(s, rows1)).Keys == ReadOutRows(s)
  {
    var s1 := AfterR1(s, rows1);
    forall id | id in s.messages ensures id in R2Key(s1) <==> IsReadOut(s, id) {
      R2IsLocal(s, s1, id);
      R2Means(s, id);
      hide EverybodyElseIsDone;
      assert id in Ids(rows1) <==> HasExpired(s, id);
      hide R2, IsReadOut;
    }
    hide R2, IsReadOut;
  }

  /** A tick marks nothing but expired and read-out messages, each with the reason that applies. */
  lemma MarksOnlyDue(cfg: Config, s: Db, rows1: seq<MsgId>, rows2: seq<MsgId>, id: MsgId)
    requires Enabled(s, OpMarkDestroyed(rows1, rows2))
    requires NewlyMarked(s, MarkDestroyed(s, rows1, rows2), id)
    ensures
      var m' := MarkDestroyed(s, rows1, rows2).messages[id];
      && m' == s.messages[id].(isDestroyed := true, destroyedAt := Some(s.now), destroyReason := m'.destroyReason)
      && (id in rows1 ==> HasExpired(s, id) && m'.destroyReason == Some(FallbackExpired))
      && (id !in rows1 ==> m'.destroyReason == Some(AllRead) && (HasExpired(s, id) || IsReadOut(s, id)))
  {
    hide Enabled, MarkDestroyed, R2, EverybodyElseIsDone;
    TickIsExact(s, rows1, rows2, id);
    R1Means(s, id);
    R2Means(s, id);
  }

  /** Either batch takes the oldest first: an eligible row that is missing was sent no earlier than any of the 500 taken. */
  lemma OldestAreTaken(s: Db, rows1: seq<MsgId>, rows2: seq<MsgId>, id: MsgId)
    requires Enabled(s, OpMarkDestroyed(rows1, rows2)) && id in s.messages
    ensures HasExpired(s, id) && id !in rows1 ==>
              |rows1| == 500 && forall x | x in rows1 :: x in s.messages && s.messages[x].createdAt <= s.messages[id].createdAt
    ensures IsReadOut(s, id) && id !in rows2 ==>
              |rows2| == 500 && forall x | x in rows2 :: x in s.messages && s.messages[x].createdAt <= s.messages[id].createdAt
  {
    var s1 := AfterR1(s, rows1);
    forall x | x in rows1 ensures x in s.messages {
      assert x in R1Key(s);
    }
    forall x | x in rows2 ensures x in s.messages && s1.messages[x].createdAt == s.messages[x].createdAt {
      assert x in R2Key(s1);
    }
    R1Means(s, id);
    if HasExpired(s, id) && id !in rows1 {
      PageMisses(rows1, R1Key(s), MARK_BATCH, id);
    }
    if IsReadOut(s, id) && id !in rows2 {
      ReadOutIsEligible(s, rows1, id);
      PageMisses(rows2, R2Key(s1), MARK_BATCH, id);
    }
    hide R2, IsReadOut, HasExpired;
  }

  lemma ReadOutIsEligible(s: Db, rows1: seq<MsgId>, id: MsgId)
    requires Page(rows1, R1Key(s), MARK_BATCH) && IsReadOut(s, id)
    ensures id in AfterR1(s, rows1).messages && id in R2Key(AfterR1(s, rows1))
  {
    var s1 := AfterR1(s, rows1);
    R1Means(s, id);
    R2Means(s, id);
    assert id in rows1 ==> id in R1Key(s);
    R2IsLocal(s, s1, id);
    hide R2, EverybodyElseIsDone;
  }

  /** A page that is not full holds every eligible row. */
  lemma PageOfAll<T>(rows: seq<T>, key: map<T, int>, limit: nat)
    requires Page(rows, key, limit) && |key.Keys| <= limit
    ensures Ids(rows) == key.Keys
  {
    PageTakes(rows, key, limit);
    assert |key| == |key.Keys|;
    assert key.Keys - Ids(rows) == {};
    assert Ids(rows) <= key.Keys;
  }

  /**
   * What a tick marks. While its own deadline lies ahead, a message is marked only if it is a
   * burn message somebody other than the sender has a receipt of, and everybody other than the
   * sender has opened it and run out of time. If no more than a batch is eligible by either rule,
   * a live message is marked if and only if that is so or its deadline has passed, and the stamp
   * says which.
   */
  lemma TickMarksExactly(cfg: Config, s: Db, rows1: seq<MsgId>, rows2: seq<MsgId>, id: MsgId)
    requires Reachable(cfg, s) && Enabled(s, OpMarkDestroyed(rows1, rows2)) && id in s.messages
    ensures
      var s' := Step(cfg, s, OpMarkDestroyed(rows1, rows2));
      && (NewlyMarked(s, s', id) ==> HasExpired(s, id) || IsReadOut(s, id))
      && (|ExpiredRows(s)| <= 500 && |ReadOutRows(s)| <= 500 ==>
            && (NewlyMarked(s, s', id) <==> HasExpired(s, id) || IsReadOut(s, id))
            && (NewlyMarked(s, s', id) ==>
                  s'.messages[id].destroyReason == Some(if HasExpired(s, id) then FallbackExpired else AllRead)))
  {
    assert Step(cfg, s, OpMarkDestroyed(rows1, rows2)) == MarkDestroyed(s, rows1, rows2);
    hide Reachable, Step, MarkDestroyed, Enabled, HasExpired, IsReadOut;
    var s' := MarkDestroyed(s, rows1, rows2);
    if NewlyMarked(s, s', id) {
      MarksOnlyDue(cfg, s, rows1, rows2, id);
    }
    if |ExpiredRows(s)| <= MARK_BATCH && |ReadOutRows(s)| <= MARK_BATCH {
      BatchesTakeAll(s, rows1, rows2, id);
      if HasExpired(s, id) || IsReadOut(s, id) {
        DueRowsAreLive(s, id);
        TickTakesRow(s, rows1, rows2, id);
      }
    }
  }

  lemma DueRowsAreLive(s: Db, id: MsgId)
    requires HasExpired(s, id) || IsReadOut(s, id)
    ensures id in s.messages && !s.messages[id].isDestroyed
  {
  }

  lemma BatchesTakeAll(s: Db, rows1: seq<MsgId>, rows2: seq<MsgId>, id: MsgId)
    requires Enabled(s, OpMarkDestroyed(rows1, rows2)) && id in s.messages
    requires |ExpiredRows(s)| <= MARK_BATCH && |ReadOutRows(s)| <= MARK_BATCH
    ensures id in rows1 <==> HasExpired(s, id)
    ensures id in rows2 <==> IsReadOut(s, id)
  {
    hide R1Key, R2Key, HasExpired, IsReadOut;
    R1Rows(s);
    PageOfAll(rows1, R1Key(s), MARK_BATCH);
    R2Rows(s, rows1);
    PageOfAll(rows2, R2Key(AfterR1(s, rows1)), MARK_BATCH);
    assert id in Ids(rows1) <==> id in ExpiredRows(s);
    assert id in Ids(rows2) <==> id in ReadOutRows(s);
    hide Enabled;
  }

  lemma TickTakesRow(s: Db, rows1: seq<MsgId>, rows2: seq<MsgId>, id: MsgId)
    requires Enabled(s, OpMarkDestroyed(rows1, rows2)) && id in s.messages
    requires !s.messages[id].isDestroyed && (id in rows1 || id in rows2)
    ensures NewlyMarked(s, MarkDestroyed(s, rows1, rows2), id)
  {
    hide Enabled, R1, R2;
    TickIsExact(s, rows1, rows2, id);
    assert id in MarkDestroyed(s, rows1, rows2).messages;
  }
}
