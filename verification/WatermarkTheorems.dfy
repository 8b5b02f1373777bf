/** When a read watermark ends older than it was: exactly which runs, and one of them. */
module WatermarkTheorems {
  import opened Prelude
  import opened Query
  import opened ChatDb
  import opened BurnSpec
  import opened Runs
  import opened Tables
  import opened ChatInvariant
  import opened BurnTheorems
  import opened MembershipTheorems
  import opened ReadTheorems
  import opened SmallWorld

  /** The message a request offers as the user's new watermark. */
  function Candidate(s: Db, op: Op, c: ConvId, u: UserId): Option<MsgId> {
    if op.OpMarkAsRead? && op.conv == c && op.user == u && s.IsMember(c, u) && op.newest != [] then
      Some(op.newest[0])
    else if op.OpMarkMessagesRead? && op.conv == c && op.user == u && MarkMessagesReadError(s, c, u, op.ids).None?
            && ListedUnread(s, c, u, op.ids) != {} && op.newest != [] then
      Some(op.newest[0])
    else
      None
  }

  /** There is nothing to compare a candidate with: no watermark, or its row has been purged. */
  predicate Gap(s: Db, c: ConvId, u: UserId) {
    WatermarkOf(s, c, u).None? || WatermarkOf(s, c, u).value !in s.messages
  }

  /** The watermark is on an existing message older than `t`. */
  predicate Behind(s: Db, c: ConvId, u: UserId, t: Millis) {
    !Gap(s, c, u) && s.messages[WatermarkOf(s, c, u).value].createdAt < t
  }

  // ----- one step -----

  lemma AdvanceTakes(s: Db, d: ConvId, v: UserId, candidate: MsgId, c: ConvId, u: UserId)
    ensures
      var s' := AdvanceLastRead(s, d, v, candidate);
      && s'.messages == s.messages
      && (c != d || u != v ==> WatermarkOf(s', c, u) == WatermarkOf(s, c, u))
      && (s.IsMember(d, v) && candidate in s.messages ==>
            WatermarkOf(s', d, v) ==
              if Gap(s, d, v) || s.messages[candidate].createdAt >= s.messages[WatermarkOf(s, d, v).value].createdAt
              then Some(candidate) else WatermarkOf(s, d, v))
  {
  }

  lemma CandidateExists(s: Db, op: Op, c: ConvId, u: UserId)
    requires Enabled(s, op) && Candidate(s, op, c, u).Some?
    ensures s.IsMember(c, u) && Candidate(s, op, c, u).value in s.messages
  {
    hide ListedUnread, ReadBound;
    assert op.newest[0] in op.newest;
  }

  /**
   * What is offered is the newest of the messages concerned: of those of the conversation up to
   * the bound, or of those of the conversation on the list.
   */
  lemma CandidateIsNewest(s: Db, op: Op, c: ConvId, u: UserId, x: MsgId)
    requires Enabled(s, op) && Candidate(s, op, c, u).Some?
    requires x in s.messages && s.messages[x].conv == c
    requires op.OpMarkMessagesRead? ==> x in op.ids
    requires op.OpMarkAsRead? && op.upTo.Some? && op.upTo.value in s.messages && s.messages[op.upTo.value].conv == c ==>
               s.messages[x].createdAt <= s.messages[op.upTo.value].createdAt
    ensures
      var y := Candidate(s, op, c, u).value;
      && y in s.messages && s.messages[y].conv == c && s.messages[x].createdAt <= s.messages[y].createdAt
      && (op.OpMarkMessagesRead? ==> y in op.ids)
      && (op.OpMarkAsRead? && op.upTo.Some? && op.upTo.value in s.messages && s.messages[op.upTo.value].conv == c ==>
            s.messages[y].createdAt <= s.messages[op.upTo.value].createdAt)
  {
    var y := op.newest[0];
    if op.OpMarkAsRead? {
      LeastOfOne(NewestKey(s, c, ReadBound(s, c, op.upTo)), op.newest, x);
    } else {
      LeastOfOne(NewestListedKey(s, c, op.ids), op.newest, x);
    }
    hide ListedUnread, MarkMessagesReadError, Page;
  }

  lemma LeastOfOne(key: map<MsgId, int>, rows: seq<MsgId>, x: MsgId)
    requires Page(rows, key, 1) && rows != [] && x in key
    ensures rows[0] in key && key[rows[0]] <= key[x]
  {
    assert rows[0] in rows;
    if x != rows[0] {
      assert x !in rows;
    }
  }

  lemma BulkMarkOffers(cfg: Config, s: Db, op: Op, c: ConvId, u: UserId)
    requires op.OpMarkAsRead? && (Candidate(s, op, c, u).Some? ==> Candidate(s, op, c, u).value in s.messages)
    ensures Follows(s, Step(cfg, s, op), Candidate(s, op, c, u), c, u) && Step(cfg, s, op).messages == s.messages
  {
    hide AdvanceLastRead, BulkMarkable, ReadBound;
    var ks := set k | k in s.receipts && BulkMarkable(s, op.conv, op.user, ReadBound(s, op.conv, op.upTo), k);
    if op.newest != [] {
      AdvanceTakes(SetRead(s, ks), op.conv, op.user, op.newest[0], c, u);
    }
  }

  lemma ListedMarkOffers(cfg: Config, s: Db, op: Op, c: ConvId, u: UserId)
    requires op.OpMarkMessagesRead? && (Candidate(s, op, c, u).Some? ==> Candidate(s, op, c, u).value in s.messages)
    ensures Follows(s, Step(cfg, s, op), Candidate(s, op, c, u), c, u) && Step(cfg, s, op).messages == s.messages
  {
    RefusesStrangers(s, op);
    hide AdvanceLastRead, ListedUnread, MarkMessagesReadError;
    if op.newest != [] {
      AdvanceTakes(SetRead(s, ListedUnread(s, op.conv, op.user, op.ids)), op.conv, op.user, op.newest[0], c, u);
    }
  }

  lemma RefusesStrangers(s: Db, op: Op)
    requires op.OpMarkMessagesRead?
    ensures !s.IsMember(op.conv, op.user) ==> MarkMessagesReadError(s, op.conv, op.user, op.ids).Some?
  {
  }

  lemma ReadingOffers(cfg: Config, s: Db, op: Op, c: ConvId, u: UserId)
    requires (op.OpMarkAsRead? || op.OpMarkMessagesRead?) && Enabled(s, op)
    ensures Follows(s, Step(cfg, s, op), Candidate(s, op, c, u), c, u) && Step(cfg, s, op).messages == s.messages
  {
    hide Step, Enabled, Candidate, Follows;
    if Candidate(s, op, c, u).Some? {
      CandidateExists(s, op, c, u);
    }
    if op.OpMarkAsRead? {
      BulkMarkOffers(cfg, s, op, c, u);
    } else {
      ListedMarkOffers(cfg, s, op, c, u);
    }
  }

  /** How a step moves a watermark, given what it offers. */
  predicate Follows(s: Db, s': Db, candidate: Option<MsgId>, c: ConvId, u: UserId) {
    if candidate.Some? && candidate.value in s.messages then
      && s'.messages == s.messages
      && WatermarkOf(s', c, u) ==
           if Gap(s, c, u) || s.messages[candidate.value].createdAt >= s.messages[WatermarkOf(s, c, u).value].createdAt
           then candidate else WatermarkOf(s, c, u)
    else
      candidate.None? && (WatermarkOf(s', c, u).Some? ==> WatermarkOf(s', c, u) == WatermarkOf(s, c, u))
  }

  lemma StepFollows(cfg: Config, s: Db, op: Op, c: ConvId, u: UserId)
    requires Reachable(cfg, s) && Enabled(s, op)
    ensures Follows(s, Step(cfg, s, op), Candidate(s, op, c, u), c, u)
  {
    hide Reachable, Step, Enabled, ListedUnread, MarkMessagesReadError;
    if op.OpMarkAsRead? || op.OpMarkMessagesRead? {
      ReadingOffers(cfg, s, op, c, u);
    } else if DirectoryOp(op) {
      OwnershipAndCounts(cfg, s);
      DirectoryKeepsWatermarks(cfg, s, op, c, u);
    } else if op.OpMarkDestroyed? || op.OpManualDestroy? || op.OpAck? || op.OpSweep? {
      PurgeStepsKeepRoles(cfg, s, op);
    } else if op.OpOwnerDissolve? || op.OpDissolveOnAccountDelete? {
      DissolveStepsKeepRoles(cfg, s, op);
    } else {
      CopyStepsKeepRoles(cfg, s, op);
    }
  }

  // ----- a watermark is always a message that was sent -----

  ghost predicate WasSent(s: Db, c: ConvId, u: UserId) {
    WatermarkOf(s, c, u).Some? ==> WatermarkOf(s, c, u).value in s.messages || WatermarkOf(s, c, u).value in s.tombstones
  }

  lemma StepKeepsSent(cfg: Config, s: Db, op: Op, c: ConvId, u: UserId)
    requires Reachable(cfg, s) && Enabled(s, op) && WasSent(s, c, u)
    ensures WasSent(Step(cfg, s, op), c, u) && Reachable(cfg, Step(cfg, s, op))
  {
    hide Reachable, Step, Enabled, Consistent, Evolves, Candidate;
    var s' := Step(cfg, s, op);
    StepFollows(cfg, s, op, c, u);
    ReachableStep(cfg, s, op);
    ReachableIsConsistent(cfg, s);
    StepIsSafe(cfg, s, op);
    if WatermarkOf(s', c, u).Some? && WatermarkOf(s', c, u) == WatermarkOf(s, c, u) {
      var w := WatermarkOf(s, c, u).value;
      if w in s.messages {
        RowMoves(cfg, s, s', w);
      } else {
        TombstonesStay(cfg, s, s', w);
      }
    }
  }

  lemma {:induction false} RunKeepsSent(cfg: Config, s: Db, ops: seq<Op>, c: ConvId, u: UserId)
    requires Reachable(cfg, s) && Run(cfg, s, ops) && WasSent(s, c, u)
    ensures WasSent(Exec(cfg, s, ops), c, u)
    decreases |ops|
  {
    hide Reachable, Step, Enabled, WasSent;
    if ops != [] {
      StepKeepsSent(cfg, s, ops[0], c, u);
      RunKeepsSent(cfg, Step(cfg, s, ops[0]), ops[1..], c, u);
    }
  }

  lemma WatermarkWasSent(cfg: Config, s: Db, c: ConvId, u: UserId)
    requires Reachable(cfg, s)
    ensures WasSent(s, c, u)
  {
    var s0: Db, ops: seq<Op> :| Initial(s0) && Run(cfg, s0, ops) && s == Exec(cfg, s0, ops);
    assert Run(cfg, s0, []) && Exec(cfg, s0, []) == s0;
    RunKeepsSent(cfg, s0, ops, c, u);
  }

  /** A step over a gap or a watermark behind `t` ends ahead of `t` exactly if it offers a message not older. */
  lemma BehindStep(cfg: Config, s: Db, op: Op, c: ConvId, u: UserId, t: Millis)
    requires Reachable(cfg, s) && Enabled(s, op)
    ensures
      var s', candidate := Step(cfg, s, op), Candidate(s, op, c, u);
      && (candidate.Some? ==> candidate.value in s.messages)
      && (Gap(s, c, u) || Behind(s, c, u, t) ==>
            if candidate.Some? then Behind(s', c, u, t) <==> s.messages[candidate.value].createdAt < t
            else Gap(s', c, u) || Behind(s', c, u, t))
      && (Gap(s, c, u) && candidate.None? ==> Gap(s', c, u))
      && (Behind(s', c, u, t) ==>
            && (candidate.Some? ==> s.messages[candidate.value].createdAt < t)
            && (Gap(s, c, u) || Behind(s, c, u, t)))
      && (candidate.Some? ==> !Gap(s', c, u))
  {
    hide Reachable, Step, Enabled, Consistent, Evolves, Candidate;
    var s', candidate := Step(cfg, s, op), Candidate(s, op, c, u);
    StepFollows(cfg, s, op, c, u);
    WatermarkWasSent(cfg, s, c, u);
    ReachableIsConsistent(cfg, s);
    StepIsSafe(cfg, s, op);
    if WatermarkOf(s, c, u).Some? {
      var w := WatermarkOf(s, c, u).value;
      if w in s.messages {
        RowMoves(cfg, s, s', w);
      } else {
        TombstonesStay(cfg, s, s', w);
      }
    }
  }

  // ----- whole runs -----

  /** Everything the run offers as the user's watermark is older than `t`. */
  predicate OffersOlder(cfg: Config, s: Db, ops: seq<Op>, c: ConvId, u: UserId, t: Millis)
    decreases |ops|
  {
    ops != [] ==>
      && (Candidate(s, ops[0], c, u).Some? && Candidate(s, ops[0], c, u).value in s.messages ==>
            s.messages[Candidate(s, ops[0], c, u).value].createdAt < t)
      && OffersOlder(cfg, Step(cfg, s, ops[0]), ops[1..], c, u, t)
  }

  /** At some moment there is no watermark to compare with, and from then on only older messages are offered. */
  predicate LostAndRestarted(cfg: Config, s: Db, ops: seq<Op>, c: ConvId, u: UserId, t: Millis)
    decreases |ops|
  {
    || (Gap(s, c, u) && OffersOlder(cfg, s, ops, c, u, t))
    || (ops != [] && LostAndRestarted(cfg, Step(cfg, s, ops[0]), ops[1..], c, u, t))
  }

  lemma {:induction false} OlderOffersStayBehind(cfg: Config, s: Db, ops: seq<Op>, c: ConvId, u: UserId, t: Millis)
    requires Reachable(cfg, s) && Run(cfg, s, ops) && OffersOlder(cfg, s, ops, c, u, t)
    requires Gap(s, c, u) || Behind(s, c, u, t)
    ensures
      var s' := Exec(cfg, s, ops);
      Gap(s', c, u) || Behind(s', c, u, t)
    decreases |ops|
  {
    hide Reachable, Step, Enabled, Gap, Behind, Candidate;
    if ops != [] {
      BehindStep(cfg, s, ops[0], c, u, t);
      ReachableStep(cfg, s, ops[0]);
      OlderOffersStayBehind(cfg, Step(cfg, s, ops[0]), ops[1..], c, u, t);
    }
  }

  lemma {:induction false} RestartEndsBehind(cfg: Config, s: Db, ops: seq<Op>, c: ConvId, u: UserId, t: Millis)
    requires Reachable(cfg, s) && Run(cfg, s, ops) && LostAndRestarted(cfg, s, ops, c, u, t)
    ensures
      var s' := Exec(cfg, s, ops);
      Gap(s', c, u) || Behind(s', c, u, t)
    decreases |ops|
  {
    hide Reachable, Step, Enabled, Gap, Behind, OffersOlder;
    if Gap(s, c, u) && OffersOlder(cfg, s, ops, c, u, t) {
      OlderOffersStayBehind(cfg, s, ops, c, u, t);
    } else {
      ReachableStep(cfg, s, ops[0]);
      RestartEndsBehind(cfg, Step(cfg, s, ops[0]), ops[1..], c, u, t);
    }
  }

  lemma {:induction false} BehindNeedsRestart(cfg: Config, s: Db, ops: seq<Op>, c: ConvId, u: UserId, t: Millis)
    requires Reachable(cfg, s) && Run(cfg, s, ops) && Behind(Exec(cfg, s, ops), c, u, t)
    ensures LostAndRestarted(cfg, s, ops, c, u, t) || (Behind(s, c, u, t) && OffersOlder(cfg, s, ops, c, u, t))
    decreases |ops|
  {
    hide Reachable, Step, Enabled, Gap, Behind, Candidate;
    if ops != [] {
      BehindStep(cfg, s, ops[0], c, u, t);
      ReachableStep(cfg, s, ops[0]);
      BehindNeedsRestart(cfg, Step(cfg, s, ops[0]), ops[1..], c, u, t);
    }
  }

  /**
   * Over any run that starts and ends with a watermark on an existing message, the watermark
   * ends older than it began if and only if at some moment it was lost (the member had none, or
   * its row was purged) and every message offered from then on was older.
   */
  lemma WatermarkMovesBackExactly(cfg: Config, s: Db, ops: seq<Op>, c: ConvId, u: UserId)
    requires Reachable(cfg, s) && Run(cfg, s, ops) && !Gap(s, c, u) && !Gap(Exec(cfg, s, ops), c, u)
    ensures
      var s' := Exec(cfg, s, ops);
      var t := s.messages[WatermarkOf(s, c, u).value].createdAt;
      s'.messages[WatermarkOf(s', c, u).value].createdAt < t <==> LostAndRestarted(cfg, s, ops, c, u, t)
  {
    hide Reachable, Run, Exec, LostAndRestarted;
    var t := s.messages[WatermarkOf(s, c, u).value].createdAt;
    if LostAndRestarted(cfg, s, ops, c, u, t) {
      RestartEndsBehind(cfg, s, ops, c, u, t);
    }
    if Behind(Exec(cfg, s, ops), c, u, t) {
      BehindNeedsRestart(cfg, s, ops, c, u, t);
    }
  }

  // ----- a run in which it happens -----

  const OLD := Greeting(2, 0, None, None)
  const NEW := Greeting(2, 1, None, None)
  const BURNT := NEW.(isDestroyed := true, destroyedAt := Some(1), destroyReason := Some(Manual))
  const READ := Receipt(true, Some(1), None, None)

  function Copies3(r: Receipt): map<CopyKey, Receipt> {
    map[CopyKey(3, 1) := r, CopyKey(3, 2) := Receipt(true, Some(0), None, None)]
  }

  function Copies4(r3: Receipt, r4: Receipt): map<CopyKey, Receipt> {
    Copies3(r3)[CopyKey(4, 1) := r4][CopyKey(4, 2) := READ]
  }

  function Copies5(r4: Receipt, r5: Receipt): map<CopyKey, Receipt> {
    Copies4(UNREAD_COPY, r4)[CopyKey(5, 1) := r5][CopyKey(5, 2) := READ]
  }

  function One(now: Millis): Db {
    Pair(now, map[3 := OLD], Copies3(UNREAD_COPY), {}, map[], None)
  }

  function Two(): Db {
    Pair(1, map[3 := OLD, 4 := NEW], Copies4(UNREAD_COPY, UNREAD_COPY), {}, map[], None)
  }

  function Three(m5: Message, r4: Receipt, r5: Receipt, mark: Option<MsgId>): Db {
    Pair(1, map[3 := OLD, 4 := NEW, 5 := m5], Copies5(r4, r5), {}, map[], mark)
  }

  function Purged(r3: Receipt, mark: MsgId): Db {
    Pair(1, map[3 := OLD, 4 := NEW], Copies4(r3, READ), {}, map[5 := Tombstone(0, 2, Text, 1, 1, Manual)], Some(mark))
  }

  lemma Sends3(cfg: Config)
    ensures Performs(cfg, Pair(0, map[], map[], {}, map[], None), OpSend(3, Hello(2, None)), One(0))
  {
    PairSends(cfg, Pair(0, map[], map[], {}, map[], None), 3, 2, None);
    assert One(0).receipts == map[] + PairCopies(3, 2, 0);
    hide Step, Enabled;
  }

  lemma Sends4(cfg: Config)
    ensures Performs(cfg, One(1), OpSend(4, Hello(2, None)), Two())
  {
    hide Step, Enabled;
    PairSends(cfg, One(1), 4, 2, None);
    TwoMore(One(1).receipts, CopyKey(4, 1), UNREAD_COPY, CopyKey(4, 2), READ);
    assert Two().messages == One(1).messages[4 := NEW];
  }

  lemma TwoMore<K, V>(m: map<K, V>, a: K, x: V, b: K, y: V)
    ensures m + map[b := y, a := x] == m[a := x][b := y] || a == b
  {
  }

  lemma Sends5(cfg: Config)
    ensures Performs(cfg, Two(), OpSend(5, Hello(2, None)), Three(NEW, UNREAD_COPY, UNREAD_COPY, None))
  {
    var s' := Three(NEW, UNREAD_COPY, UNREAD_COPY, None);
    hide Step, Enabled;
    PairSends(cfg, Two(), 5, 2, None);
    TwoMore(Two().receipts, CopyKey(5, 1), UNREAD_COPY, CopyKey(5, 2), READ);
    assert s'.messages == Two().messages[5 := NEW];
  }

  lemma Reads4(cfg: Config)
    ensures Performs(cfg, Three(NEW, UNREAD_COPY, UNREAD_COPY, None), OpMarkMessagesRead(0, 1, [4], [4]),
                     Three(NEW, READ, UNREAD_COPY, Some(4)))
  {
    var s, s' := Three(NEW, UNREAD_COPY, UNREAD_COPY, None), Three(NEW, READ, UNREAD_COPY, Some(4));
    PairReads(cfg, s, 4, None);
    assert s'.receipts == s.receipts[CopyKey(4, 1) := READ];
    hide Step, Enabled;
  }

  lemma Reads5(cfg: Config)
    ensures Performs(cfg, Three(NEW, READ, UNREAD_COPY, Some(4)), OpMarkMessagesRead(0, 1, [5], [5]), Three(NEW, READ, READ, Some(5)))
  {
    var s, s' := Three(NEW, READ, UNREAD_COPY, Some(4)), Three(NEW, READ, READ, Some(5));
    PairReads(cfg, s, 5, Some(4));
    assert s'.receipts == s.receipts[CopyKey(5, 1) := READ];
    hide Step, Enabled;
  }

  lemma Destroys5(cfg: Config)
    ensures Performs(cfg, Three(NEW, READ, READ, Some(5)), OpManualDestroy(5), Three(BURNT, READ, READ, Some(5)))
  {
    var s, s' := Three(NEW, READ, READ, Some(5)), Three(BURNT, READ, READ, Some(5));
    PairDestroys(cfg, s, 5);
    assert s'.messages == s.messages[5 := BURNT];
    hide Step, Enabled;
  }

  lemma Confirms5(cfg: Config)
    ensures Performs(cfg, Three(BURNT, READ, READ, Some(5)), OpAck(0, 1, [5]), Purged(UNREAD_COPY, 5))
  {
    PairConfirms(cfg, Three(BURNT, READ, READ, Some(5)), 1, 5);
    BurntIsPurged();
    hide Step, Enabled, PurgeRows;
  }

  lemma BurntIsPurged()
    ensures Purged(UNREAD_COPY, 5) == PurgeRows(Three(BURNT, READ, READ, Some(5)), {5})
  {
    var s := Three(BURNT, READ, READ, Some(5));
    PurgedMessages(s);
    PurgedReceipts(s);
    PurgedStones(s);
  }

  lemma PurgedMessages(s: Db)
    requires s.messages == map[3 := OLD, 4 := NEW, 5 := BURNT]
    ensures PurgeRows(s, {5}).messages == map[3 := OLD, 4 := NEW]
  {
  }

  lemma PurgedReceipts(s: Db)
    requires s.receipts == Copies5(READ, READ) && 5 in s.messages
    ensures PurgeRows(s, {5}).receipts == Copies4(UNREAD_COPY, READ)
  {
  }

  lemma PurgedStones(s: Db)
    requires 5 in s.messages && s.messages[5] == BURNT && s.tombstones == map[]
    ensures PurgeRows(s, {5}).tombstones == map[5 := Tombstone(0, 2, Text, 1, 1, Manual)]
  {
  }

  lemma Reads3(cfg: Config)
    ensures Performs(cfg, Purged(UNREAD_COPY, 5), OpMarkMessagesRead(0, 1, [3], [3]), Purged(READ, 3))
  {
    PairReads(cfg, Purged(UNREAD_COPY, 5), 3, Some(5));
    assert Purged(READ, 3).receipts == Purged(UNREAD_COPY, 5).receipts[CopyKey(3, 1) := READ];
    hide Step, Enabled;
  }

  lemma ThreeSends(cfg: Config)
    ensures Reachable(cfg, Three(NEW, UNREAD_COPY, UNREAD_COPY, None))
  {
    PairMeets(cfg);
    Sends3(cfg);
    assert Performs(cfg, One(0), OpElapse(1), One(1));
    Sends4(cfg);
    Sends5(cfg);
    hide Run, Exec, Performs, Pair, One, Two, Three;
    var a, d := Pair(0, map[], map[], {}, map[], None), Three(NEW, UNREAD_COPY, UNREAD_COPY, None);
    var ops: seq<Op> := [];
    Stays(cfg, d);
    ops := Before(cfg, Two(), OpSend(5, Hello(2, None)), d, ops, d);
    ops := Before(cfg, One(1), OpSend(4, Hello(2, None)), Two(), ops, d);
    ops := Before(cfg, One(0), OpElapse(1), One(1), ops, d);
    ops := Before(cfg, a, OpSend(3, Hello(2, None)), One(0), ops, d);
    ops := Before(cfg, EmptyDb(0), OpOpenPrivate(0, 1, 2, true), a, ops, d);
    assert Initial(EmptyDb(0));
  }

  /**
   * A reachable database and a run from it that takes 1's watermark from message 4 back to the
   * older message 3 while the rows of both exist: 1 reads 5, which is destroyed by hand and
   * purged on 1's own confirmation, and then reads 3.
   */
  lemma WatermarkMovesBackInARun(cfg: Config) returns (s: Db, ops: seq<Op>)
    ensures Reachable(cfg, s) && Run(cfg, s, ops) && WatermarkOf(s, 0, 1) == Some(4) && 4 in s.messages
    ensures
      var s' := Exec(cfg, s, ops);
      && WatermarkOf(s', 0, 1) == Some(3) && 3 in s'.messages && 4 in s'.messages
      && s'.messages[3].createdAt < s'.messages[4].createdAt
  {
    ThreeSends(cfg);
    Reads4(cfg);
    Reads5(cfg);
    Destroys5(cfg);
    Confirms5(cfg);
    Reads3(cfg);
    hide Run, Exec, Step, Enabled, Reachable;
    s := Three(NEW, READ, UNREAD_COPY, Some(4));
    ReachableStep(cfg, Three(NEW, UNREAD_COPY, UNREAD_COPY, None), OpMarkMessagesRead(0, 1, [4], [4]));
    ops := BackToThree(cfg);
  }

  lemma BackToThree(cfg: Config) returns (ops: seq<Op>)
    requires Performs(cfg, Three(NEW, READ, UNREAD_COPY, Some(4)), OpMarkMessagesRead(0, 1, [5], [5]), Three(NEW, READ, READ, Some(5)))
    requires Performs(cfg, Three(NEW, READ, READ, Some(5)), OpManualDestroy(5), Three(BURNT, READ, READ, Some(5)))
    requires Performs(cfg, Three(BURNT, READ, READ, Some(5)), OpAck(0, 1, [5]), Purged(UNREAD_COPY, 5))
    requires Performs(cfg, Purged(UNREAD_COPY, 5), OpMarkMessagesRead(0, 1, [3], [3]), Purged(READ, 3))
    ensures Run(cfg, Three(NEW, READ, UNREAD_COPY, Some(4)), ops)
    ensures Exec(cfg, Three(NEW, READ, UNREAD_COPY, Some(4)), ops) == Purged(READ, 3)
  {
    hide Run, Exec, Performs, Pair, Three, Purged;
    var z := Purged(READ, 3);
    ops := [];
    Stays(cfg, z);
    ops := Before(cfg, Purged(UNREAD_COPY, 5), OpMarkMessagesRead(0, 1, [3], [3]), z, ops, z);
    ops := Before(cfg, Three(BURNT, READ, READ, Some(5)), OpAck(0, 1, [5]), Purged(UNREAD_COPY, 5), ops, z);
    ops := Before(cfg, Three(NEW, READ, READ, Some(5)), OpManualDestroy(5), Three(BURNT, READ, READ, Some(5)), ops, z);
    ops := Before(cfg, Three(NEW, READ, UNREAD_COPY, Some(4)), OpMarkMessagesRead(0, 1, [5], [5]), Three(NEW, READ, READ, Some(5)), ops, z);
  }
}
