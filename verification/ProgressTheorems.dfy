/** From its deadline to its tombstone: how many ticks and sweeps a message can outlast. */
module ProgressTheorems {
  import opened Prelude
  import opened Query
  import opened ChatDb
  import opened BurnSpec
  import opened Runs
  import opened ChatInvariant
  import opened LifecycleTheorems
  import opened BurnTheorems
  import opened PurgeTheorems

  /** The unmarked rows created at `t` or before. */
  function LiveUpTo(s: Db, t: Millis): set<MsgId> {
    set id | id in s.messages && !s.messages[id].isDestroyed && s.messages[id].createdAt <= t
  }

  function Ticks(ops: seq<Op>): nat {
    if ops == [] then 0 else (if ops[0].OpMarkDestroyed? then 1 else 0) + Ticks(ops[1..])
  }

  // ----- one step -----

  /** No step brings back a live row of the past. */
  lemma LiveOnlyShrinks(cfg: Config, s: Db, s': Db, t: Millis)
    requires Consistent(cfg, s) && Safe(cfg, s, s') && t < s.now
    ensures LiveUpTo(s', t) <= LiveUpTo(s, t)
  {
    forall id | id in LiveUpTo(s', t) ensures id in LiveUpTo(s, t) {
      if id in s.messages {
        assert MessageEvolves(s, s', id);
      }
    }
  }

  /** What rule R1's page does to the rows up to `t`: everything expired among them goes, or 500 of them. */
  lemma R1TakesOldestFirst(s: Db, rows: seq<MsgId>, t: Millis, id: MsgId)
    requires Page(rows, R1Key(s), MARK_BATCH) && id in LiveUpTo(s, t) && R1(s, id)
    ensures id in rows || (|Ids(rows)| == MARK_BATCH && Ids(rows) <= LiveUpTo(s, t))
  {
    var key, c := R1Key(s), t + 1;
    DistinctSize(rows);
    PageThreshold(rows, key, MARK_BATCH, c);
    var under := set x | x in key && key[x] < c;
    assert id in under && under <= LiveUpTo(s, t);
    hide Page, R1Key, LiveUpTo;
  }

  lemma TickMarksItsPage(cfg: Config, s: Db, rows1: seq<MsgId>, rows2: seq<MsgId>, t: Millis)
    ensures LiveUpTo(Step(cfg, s, OpMarkDestroyed(rows1, rows2)), t) <= LiveUpTo(s, t) - Ids(rows1)
  {
  }

  /** A tick marks an expired row, or 500 rows no younger than it. */
  lemma TickMarksOrFills(cfg: Config, s: Db, op: Op, id: MsgId, t: Millis)
    requires op.OpMarkDestroyed? && Enabled(s, op) && id in LiveUpTo(s, t) && R1(s, id)
    requires PhaseOf(Step(cfg, s, op), id) == Live
    ensures |LiveUpTo(Step(cfg, s, op), t)| + MARK_BATCH <= |LiveUpTo(s, t)|
  {
    var before, after := LiveUpTo(s, t), LiveUpTo(Step(cfg, s, op), t);
    TickMarksItsPage(cfg, s, op.rows1, op.rows2, t);
    R1TakesOldestFirst(s, op.rows1, t, id);
    StaysListed(cfg, s, op, id, t);
    hide Step, LiveUpTo, R1, Page, R1Key, R2Key;
    SubsetSize(after, before - Ids(op.rows1));
    assert id in after && id !in Ids(op.rows1);
    assert before == (before - Ids(op.rows1)) + Ids(op.rows1);
  }

  lemma StaysListed(cfg: Config, s: Db, op: Op, id: MsgId, t: Millis)
    requires op.OpMarkDestroyed? && id in LiveUpTo(s, t) && PhaseOf(Step(cfg, s, op), id) == Live
    ensures id in LiveUpTo(Step(cfg, s, op), t)
  {
  }

  // ----- whole runs -----

  /** A live, expired row stays expired while it is live. */
  lemma StaysExpired(cfg: Config, s: Db, op: Op, ops: seq<Op>, id: MsgId)
    requires Reachable(cfg, s) && Enabled(s, op) && Run(cfg, Step(cfg, s, op), ops)
    requires id in s.messages && R1(s, id) && PhaseOf(Exec(cfg, Step(cfg, s, op), ops), id) == Live
    ensures
      var s1 := Step(cfg, s, op);
      && Reachable(cfg, s1) && Safe(cfg, s, s1) && PhaseOf(s1, id) == Live && R1(s1, id)
      && s1.messages[id].createdAt == s.messages[id].createdAt
  {
    hide Reachable, Step, Enabled, Run, Exec, Consistent, Evolves;
    var s1 := Step(cfg, s, op);
    ReachableStep(cfg, s, op);
    ReachableIsConsistent(cfg, s);
    StepIsSafe(cfg, s, op);
    RowMoves(cfg, s, s1, id);
    Conservation(cfg, s1, ops, id);
  }

  lemma MarkStep(cfg: Config, s: Db, op: Op, id: MsgId, t: Millis)
    requires Reachable(cfg, s) && Enabled(s, op) && id in s.messages && R1(s, id) && s.messages[id].createdAt <= t < s.now
    requires PhaseOf(Step(cfg, s, op), id) == Live
    ensures |LiveUpTo(Step(cfg, s, op), t)| + MARK_BATCH * Ticks([op]) <= |LiveUpTo(s, t)|
    ensures s.now <= Step(cfg, s, op).now
  {
    assert [op][1..] == [];
    assert id in LiveUpTo(s, t);
    hide Reachable, Step, Enabled, Consistent, Evolves, LiveUpTo, R1;
    ReachableIsConsistent(cfg, s);
    StepIsSafe(cfg, s, op);
    ClockMoves(cfg, s, Step(cfg, s, op));
    LiveOnlyShrinks(cfg, s, Step(cfg, s, op), t);
    SubsetSize(LiveUpTo(Step(cfg, s, op), t), LiveUpTo(s, t));
    if op.OpMarkDestroyed? {
      TickMarksOrFills(cfg, s, op, id, t);
    }
  }

  /** As long as an expired row is live, every tick has marked 500 rows no younger than it. */
  lemma {:induction false} MarkProgress(cfg: Config, s: Db, ops: seq<Op>, id: MsgId, t: Millis)
    requires Reachable(cfg, s) && Run(cfg, s, ops)
    requires id in s.messages && R1(s, id) && s.messages[id].createdAt <= t < s.now
    requires PhaseOf(Exec(cfg, s, ops), id) == Live
    ensures |LiveUpTo(Exec(cfg, s, ops), t)| + MARK_BATCH * Ticks(ops) <= |LiveUpTo(s, t)|
    ensures id in LiveUpTo(Exec(cfg, s, ops), t)
    decreases |ops|
  {
    hide Reachable, Step, Enabled;
    if ops != [] {
      var s1 := Step(cfg, s, ops[0]);
      StaysExpired(cfg, s, ops[0], ops[1..], id);
      MarkStep(cfg, s, ops[0], id, t);
      assert [ops[0]][1..] == [];
      MarkProgress(cfg, s1, ops[1..], id, t);
    }
  }

  /**
   * However the run goes on, an expired message with k live messages created no later than it,
   * itself included, is marked after at most ceil(k / 500) ticks. The clock has moved on since it
   * was sent, so that nothing can still be sent with its time.
   */
  lemma ExpiredGetsMarked(cfg: Config, s: Db, ops: seq<Op>, id: MsgId)
    requires Reachable(cfg, s) && Run(cfg, s, ops)
    requires id in s.messages && R1(s, id) && s.messages[id].createdAt < s.now
    requires MARK_BATCH * Ticks(ops) >= |LiveUpTo(s, s.messages[id].createdAt)|
    ensures PhaseOf(Exec(cfg, s, ops), id) == Marked || PhaseOf(Exec(cfg, s, ops), id) == Purged
  {
    Conservation(cfg, s, ops, id);
    hide Reachable, Run, Exec, LiveUpTo;
    var t := s.messages[id].createdAt;
    if PhaseOf(Exec(cfg, s, ops), id) == Live {
      MarkProgress(cfg, s, ops, id, t);
    }
  }

  // ----- from send to tombstone -----

  /**
   * A sent burn message is gone by the promised time plus the windows that were granted, which
   * are at most one per user.
   */
  lemma SentIsGoneInTime(cfg: Config, s: Db, id: MsgId, draft: Draft, ops: seq<Op>)
    requires Reachable(cfg, s) && Enabled(s, OpSend(id, draft)) && SendError(s, draft).None?
    requires Compose(cfg, s, draft).IsBurn()
    requires Run(cfg, Step(cfg, s, OpSend(id, draft)), ops)
    requires
      var s1 := Step(cfg, s, OpSend(id, draft));
      Exec(cfg, s1, ops).now >= Promise(cfg, Compose(cfg, s, draft)) + TotalMs(Grants(cfg, s1, ops, id))
    ensures
      var s' := Exec(cfg, Step(cfg, s, OpSend(id, draft)), ops);
      id in s'.messages ==> Gone(s'.messages[id], s'.now) && s'.messages[id].createdAt == s.now
  {
    var s1 := Step(cfg, s, OpSend(id, draft));
    SentIs(cfg, s, id, draft);
    BoundedLife(cfg, s, id, draft, ops);
    ReachableStep(cfg, s, OpSend(id, draft));
    ReachableExtends(cfg, s1, ops);
    hide Step, Enabled, Run, Exec, Reachable, Compose, SendError, Grants, TotalMs, Consistent, Evolves;
    ReachableIsConsistent(cfg, s1);
    RunIsSafe(cfg, s1, ops);
    RowMoves(cfg, s1, Exec(cfg, s1, ops), id);
  }

  lemma SentIs(cfg: Config, s: Db, id: MsgId, draft: Draft)
    requires SendError(s, draft).None?
    ensures
      var s1 := Step(cfg, s, OpSend(id, draft));
      id in s1.messages && s1.messages[id] == Compose(cfg, s, draft) && s1.messages[id].createdAt == s.now
      && s1.messages[id].conv == draft.conv
  {
    hide NewCopies;
  }

  /** A marked message becomes a tombstone after the fallback days and enough sweeps, whoever does not confirm. */
  lemma MarkedGetsPurged(cfg: Config, s: Db, id: MsgId, wait: seq<Op>, sweeps: seq<Op>)
    requires Reachable(cfg, s) && (PhaseOf(s, id) == Marked || PhaseOf(s, id) == Purged) && cfg.ackFallbackDays > 0
    requires
      var s' := Exec(cfg, s, wait);
      && Run(cfg, s, wait) && s'.now > s.now + cfg.ackFallbackDays * DAY
      && Run(cfg, s', sweeps) && SWEEP_BATCH * Sweeps(sweeps) >= |StampedBefore(s', Cutoff(cfg, s'.now))|
    ensures PhaseOf(Exec(cfg, Exec(cfg, s, wait), sweeps), id) == Purged
  {
    var s' := Exec(cfg, s, wait);
    ReachableExtends(cfg, s, wait);
    hide Reachable, Run, Exec, StampedBefore, Consistent;
    Conservation(cfg, s, wait, id);
    ReachableIsConsistent(cfg, s);
    if PhaseOf(s', id) == Purged {
      Conservation(cfg, s', sweeps, id);
    } else {
      StampIsPast(cfg, s, id);
      assert Overdue(cfg, s', id);
      OverdueRowsGo(cfg, s', sweeps, id);
    }
  }

  /** Enough ticks, then enough time, then enough sweeps: an expired message is a tombstone, whatever else happens. */
  lemma ExpiredGetsPurged(cfg: Config, s: Db, id: MsgId, ticks: seq<Op>, wait: seq<Op>, sweeps: seq<Op>)
    requires Reachable(cfg, s) && id in s.messages && R1(s, id) && s.messages[id].createdAt < s.now && cfg.ackFallbackDays > 0
    requires Run(cfg, s, ticks) && MARK_BATCH * Ticks(ticks) >= |LiveUpTo(s, s.messages[id].createdAt)|
    requires
      var s1 := Exec(cfg, s, ticks);
      var s2 := Exec(cfg, s1, wait);
      && Run(cfg, s1, wait) && s2.now > s1.now + cfg.ackFallbackDays * DAY
      && Run(cfg, s2, sweeps) && SWEEP_BATCH * Sweeps(sweeps) >= |StampedBefore(s2, Cutoff(cfg, s2.now))|
    ensures PhaseOf(Exec(cfg, Exec(cfg, Exec(cfg, s, ticks), wait), sweeps), id) == Purged
  {
    hide Reachable, Run, Exec, LiveUpTo, StampedBefore, R1;
    ExpiredGetsMarked(cfg, s, ticks, id);
    ReachableExtends(cfg, s, ticks);
    MarkedGetsPurged(cfg, Exec(cfg, s, ticks), id, wait, sweeps);
  }

  lemma StampIsPast(cfg: Config, s: Db, id: MsgId)
    requires Consistent(cfg, s)
    ensures PhaseOf(s, id) == Marked ==> StampOf(s, id).Some? && StampOf(s, id).value.at <= s.now
  {
    if id in s.messages {
      assert MessageOk(cfg, s, id);
    }
  }
}
