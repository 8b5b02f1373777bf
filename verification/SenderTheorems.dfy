/**
 * The sender's own copy: the one case in which a tick ends a copy before the time its reader
 * was shown, when exactly that happens, and a run in which it does.
 */
module SenderTheorems {
  import opened Prelude
  import opened Query
  import opened ChatDb
  import opened BurnSpec
  import opened Runs
  import opened Tables
  import opened MarkTheorems
  import opened BurnTheorems
  import opened SmallWorld

  /** The tick from `s` to `s'` marks the message while the opened copy `k` still has time left. */
  predicate CutShort(s: Db, s': Db, id: MsgId, k: CopyKey) {
    NewlyMarked(s, s', id) && k in s.receipts && k.msg == id && s.receipts[k].burnAt.Some? && !s.receipts[k].RunOut(s.now)
  }

  /** The sender opened their own copy, and its time is not over. */
  predicate SenderStillReading(s: Db, id: MsgId)
    requires id in s.messages
  {
    var k := CopyKey(id, s.messages[id].sender);
    k in s.receipts && s.receipts[k].burnAt.Some? && s.receipts[k].burnAt.value > s.now
  }

  lemma TickOfOneRow(cfg: Config, s: Db, rows1: seq<MsgId>, rows2: seq<MsgId>, id: MsgId)
    requires Enabled(s, OpMarkDestroyed(rows1, rows2)) && id in s.messages
    ensures NewlyMarked(s, MarkDestroyed(s, rows1, rows2), id) ==> !s.messages[id].isDestroyed && (id in rows1 || id in rows2)
    ensures id in rows1 ==> R1(s, id)
    ensures id in rows2 && id !in rows1 ==> R2(s, id)
    ensures !s.messages[id].isDestroyed && (id in rows1 || id in rows2) ==> NewlyMarked(s, MarkDestroyed(s, rows1, rows2), id)
  {
    hide R2, Enabled;
    TickIsExact(s, rows1, rows2, id);
    assert id in MarkDestroyed(s, rows1, rows2).messages;
  }

  /**
   * Exactly when a copy is cut short. Of a newly marked message whose conversation was not
   * burned down, an opened copy has time left at the mark if and only if it is the sender's,
   * rule R2 took the message, and the sender's time lies ahead.
   */
  lemma OnlyTheSenderIsCutShort(cfg: Config, s: Db, rows1: seq<MsgId>, rows2: seq<MsgId>, id: MsgId, k: CopyKey)
    requires Reachable(cfg, s) && Enabled(s, OpMarkDestroyed(rows1, rows2))
    requires NewlyMarked(s, MarkDestroyed(s, rows1, rows2), id) && !s.BurnedDown(s.messages[id].conv)
    requires k in s.receipts && k.msg == id && s.receipts[k].burnAt.Some?
    ensures CutShort(s, MarkDestroyed(s, rows1, rows2), id, k)
            <==> k.user == s.messages[id].sender && id in rows2 && id !in rows1 && SenderStillReading(s, id)
  {
    hide Reachable, Enabled, MarkDestroyed, R2;
    TickOfOneRow(cfg, s, rows1, rows2, id);
    if id in rows1 {
      ExpiryOutlastsEveryCopy(cfg, s, id, k);
    } else if k.user != s.messages[id].sender {
      R2Copy(s, id, k);
    }
  }

  /**
   * The same, as a caller can tell before the tick. If no more than one batch is eligible, the
   * tick cuts somebody short on a live message exactly if every recipient has read it out
   * (rule R2) and the sender's own time lies ahead; and then the message is closed to the sender.
   */
  lemma CutShortBeforehand(cfg: Config, s: Db, rows1: seq<MsgId>, rows2: seq<MsgId>, id: MsgId)
    requires Reachable(cfg, s) && Enabled(s, OpMarkDestroyed(rows1, rows2))
    requires id in s.messages && !s.messages[id].isDestroyed && !s.BurnedDown(s.messages[id].conv)
    requires |R2Key(AfterR1(s, rows1))| <= MARK_BATCH
    ensures
      var s' := Step(cfg, s, OpMarkDestroyed(rows1, rows2));
      && ((exists k :: CutShort(s, s', id, k)) <==> R2(s, id) && SenderStillReading(s, id))
      && (R2(s, id) && SenderStillReading(s, id) ==> RevealError(s', id, s.messages[id].sender) == Some(NotFound))
  {
    var s' := Step(cfg, s, OpMarkDestroyed(rows1, rows2));
    assert s' == MarkDestroyed(s, rows1, rows2);
    var own := CopyKey(id, s.messages[id].sender);
    hide Reachable, Enabled, MarkDestroyed, R2, Step;
    TickOfOneRow(cfg, s, rows1, rows2, id);
    if R2(s, id) && SenderStillReading(s, id) {
      if R1(s, id) {
        ExpiryOutlastsEveryCopy(cfg, s, id, own);
        assert false;
      }
      R2RowIsTaken(s, rows1, rows2, id);
      assert CutShort(s, s', id, own);
    }
    forall k | CutShort(s, s', id, k) ensures R2(s, id) && SenderStillReading(s, id) {
      OnlyTheSenderIsCutShort(cfg, s, rows1, rows2, id, k);
    }
  }

  /** If the batch is big enough, an eligible row is in it. */
  lemma R2RowIsTaken(s: Db, rows1: seq<MsgId>, rows2: seq<MsgId>, id: MsgId)
    requires Enabled(s, OpMarkDestroyed(rows1, rows2)) && id in s.messages
    requires R2(s, id) && id !in rows1 && |R2Key(AfterR1(s, rows1))| <= MARK_BATCH
    ensures id in rows2
  {
    var s1 := AfterR1(s, rows1);
    assert s1.messages[id] == s.messages[id];
    R2IsLocal(s, s1, id);
    hide R2;
    var key := R2Key(s1);
    assert id in key;
    PageTakes(rows2, key, MARK_BATCH);
    assert |key| == |key.Keys|;
    assert key.Keys - Ids(rows2) == {};
  }

  // ----- a run in which it happens -----

  /**
   * From the empty database: a private conversation, a message with ten seconds to live, the
   * recipient opens it at second 1, the sender opens their own copy at second 10 and is shown
   * ten seconds, and the tick of second 11 marks it with nine of them left.
   */
  lemma SenderCutShortInARun(cfg: Config) returns (ops: seq<Op>, s: Db)
    ensures Initial(EmptyDb(0)) && Run(cfg, EmptyDb(0), ops) && s == Exec(cfg, EmptyDb(0), ops)
    ensures 5 in s.messages && !s.BurnedDown(s.messages[5].conv)
    ensures RevealedView(s, 5, 1).remainSeconds == 9
    ensures Enabled(s, OpMarkDestroyed([], [5])) && CutShort(s, MarkDestroyed(s, [], [5]), 5, CopyKey(5, 1))
  {
    ops := SenderOpensLast(cfg);
    s := AfterSender(cfg, 11000);
    ReadOutScene(cfg, s);
  }

  function Due(cfg: Config): nat {
    Max(cfg.fallbackMs, 10000)
  }

  /** The message at three moments: sent, opened by the recipient, opened by the sender. */
  function Sent(cfg: Config): Message {
    Greeting(1, 0, Some(10), Some(Due(cfg)))
  }

  function Later(m: Message, at: Millis): Message
    requires m.destroyAt.Some?
  {
    if at > m.destroyAt.value then m.(destroyAt := Some(at)) else m
  }

  const SENDER_CLOSED := Receipt(true, Some(0), None, None)
  const SENDER_OPEN := Receipt(true, Some(10000), Some(10000), Some(20000))
  const READER_OPEN := Receipt(true, Some(1000), Some(1000), Some(11000))

  function Scene(now: Millis, m: Message, sender: Receipt, reader: Receipt): Db {
    Pair(now, map[5 := m], map[CopyKey(5, 1) := sender, CopyKey(5, 2) := reader], {}, map[], None)
  }

  function AfterSend(cfg: Config, now: Millis): Db {
    Scene(now, Sent(cfg), SENDER_CLOSED, UNREAD_COPY)
  }

  function AfterReader(cfg: Config, now: Millis): Db {
    Scene(now, Later(Sent(cfg), 11000), SENDER_CLOSED, READER_OPEN)
  }

  function AfterSender(cfg: Config, now: Millis): Db {
    Scene(now, Later(Later(Sent(cfg), 11000), 20000), SENDER_OPEN, READER_OPEN)
  }

  lemma SenderSends(cfg: Config)
    ensures Performs(cfg, Pair(0, map[], map[], {}, map[], None), OpSend(5, Hello(1, Some(10))), AfterSend(cfg, 0))
  {
    var s := Pair(0, map[], map[], {}, map[], None);
    PairSends(cfg, s, 5, 1, Some(10));
    assert AfterSend(cfg, 0).receipts == s.receipts + PairCopies(5, 1, 0);
    hide Step, Enabled;
  }

  lemma ReaderOpens(cfg: Config)
    ensures Performs(cfg, AfterSend(cfg, 1000), OpReveal(5, 2, None), AfterReader(cfg, 1000))
  {
    var s, s' := AfterSend(cfg, 1000), AfterReader(cfg, 1000);
    Opens(cfg, s, 5, 2, 11000);
    assert s'.messages == s.messages[5 := s'.messages[5]];
    assert s'.receipts == s.receipts[CopyKey(5, 2) := READER_OPEN];
    hide Step, Enabled;
  }

  lemma SenderOpens(cfg: Config)
    ensures Performs(cfg, AfterReader(cfg, 10000), OpReveal(5, 1, None), AfterSender(cfg, 10000))
  {
    var s, s' := AfterReader(cfg, 10000), AfterSender(cfg, 10000);
    Opens(cfg, s, 5, 1, 20000);
    assert s'.messages == s.messages[5 := s'.messages[5]];
    assert s'.receipts == s.receipts[CopyKey(5, 1) := SENDER_OPEN];
    hide Step, Enabled;
  }

  lemma Waits(cfg: Config, now: Millis, dt: nat, m: Message, sender: Receipt, reader: Receipt)
    ensures Performs(cfg, Scene(now, m, sender, reader), OpElapse(dt), Scene(now + dt, m, sender, reader))
  {
  }

  lemma SenderOpensLast(cfg: Config) returns (ops: seq<Op>)
    ensures Run(cfg, EmptyDb(0), ops) && AfterSender(cfg, 11000) == Exec(cfg, EmptyDb(0), ops)
  {
    PairMeets(cfg);
    SenderSends(cfg);
    ReaderOpens(cfg);
    SenderOpens(cfg);
    Waits(cfg, 0, 1000, Sent(cfg), SENDER_CLOSED, UNREAD_COPY);
    Waits(cfg, 1000, 9000, Later(Sent(cfg), 11000), SENDER_CLOSED, READER_OPEN);
    Waits(cfg, 10000, 1000, Later(Later(Sent(cfg), 11000), 20000), SENDER_OPEN, READER_OPEN);
    hide Run, Exec, Performs, Pair, Scene;
    var s := AfterSender(cfg, 11000);
    ops := [];
    Stays(cfg, s);
    ops := Before(cfg, AfterSender(cfg, 10000), OpElapse(1000), s, ops, s);
    ops := Before(cfg, AfterReader(cfg, 10000), OpReveal(5, 1, None), AfterSender(cfg, 10000), ops, s);
    ops := Before(cfg, AfterReader(cfg, 1000), OpElapse(9000), AfterReader(cfg, 10000), ops, s);
    ops := Before(cfg, AfterSend(cfg, 1000), OpReveal(5, 2, None), AfterReader(cfg, 1000), ops, s);
    ops := Before(cfg, AfterSend(cfg, 0), OpElapse(1000), AfterSend(cfg, 1000), ops, s);
    ops := Before(cfg, Pair(0, map[], map[], {}, map[], None), OpSend(5, Hello(1, Some(10))), AfterSend(cfg, 0), ops, s);
    ops := Before(cfg, EmptyDb(0), OpOpenPrivate(0, 1, 2, true), Pair(0, map[], map[], {}, map[], None), ops, s);
  }

  /** At second 11 rule R1 does not hold of the message, and rule R2 does. */
  lemma RulesInScene(cfg: Config, s: Db)
    requires s == AfterSender(cfg, 11000)
    ensures s.messages.Keys == {5} && !s.messages[5].isDestroyed && s.messages[5].createdAt == 0
    ensures !R1(s, 5) && R2(s, 5)
    ensures CopyKey(5, 1) in s.receipts && s.receipts[CopyKey(5, 1)] == SENDER_OPEN
    ensures !s.BurnedDown(s.messages[5].conv) && RevealedView(s, 5, 1).remainSeconds == 9
  {
    assert Counts(s, 5, CopyKey(5, 2));
  }

  /** With one message, which rule R2 takes, the tick has one choice of pages. */
  lemma PagesInScene(s: Db)
    requires s.messages.Keys == {5} && s.messages[5].createdAt == 0 && !R1(s, 5) && R2(s, 5)
    ensures Enabled(s, OpMarkDestroyed([], [5]))
  {
    hide R1, R2;
    assert R1Key(s) == map[];
    assert AfterR1(s, []).messages == s.messages;
    assert AfterR1(s, []) == s;
    assert R2Key(s) == map[5 := 0];
    assert Page([5], R2Key(s), MARK_BATCH);
  }

  lemma ReadOutScene(cfg: Config, s: Db)
    requires s == AfterSender(cfg, 11000)
    ensures 5 in s.messages && !s.BurnedDown(s.messages[5].conv)
    ensures RevealedView(s, 5, 1).remainSeconds == 9
    ensures Enabled(s, OpMarkDestroyed([], [5])) && CutShort(s, MarkDestroyed(s, [], [5]), 5, CopyKey(5, 1))
  {
    RulesInScene(cfg, s);
    hide R1, R2, Enabled, MarkDestroyed;
    PagesInScene(s);
    TickOfOneRow(cfg, s, [], [5], 5);
  }
}
