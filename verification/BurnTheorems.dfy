/** What a run promises about when a burn message disappears, and that it stays gone. */
module BurnTheorems {
  import opened Prelude
  import opened ChatDb
  import opened BurnSpec
  import opened Runs
  import opened ChatInvariant
  import opened MarkTheorems

  // ----- no early burn -----

  predicate NewlyMarked(s: Db, s': Db, id: MsgId) {
    id in s.messages && !s.messages[id].isDestroyed && id in s'.messages && s'.messages[id].isDestroyed
  }

  /**
   * A tick never burns a message under a recipient's nose. Unless the owner burned the
   * conversation down, whatever it marks is a burn message all of whose opened recipient
   * copies have run out; if a recipient never opened it, its full promised life is over.
   */
  lemma NoEarlyBurn(cfg: Config, s: Db, rows1: seq<MsgId>, rows2: seq<MsgId>, id: MsgId)
    requires Reachable(cfg, s) && Enabled(s, OpMarkDestroyed(rows1, rows2))
    requires NewlyMarked(s, MarkDestroyed(s, rows1, rows2), id) && !s.BurnedDown(s.messages[id].conv)
    ensures
      var m := MarkDestroyed(s, rows1, rows2).messages[id];
      && m.IsBurn()
      && m.destroyedAt == Some(s.now)
      && (forall k | k in s.receipts && Counts(s, id, k) && s.receipts[k].burnAt.Some? ::
            s.receipts[k].burnAt.value <= m.destroyedAt.value)
      && ((exists k | k in s.receipts :: Counts(s, id, k) && s.receipts[k].revealedAt.None?) ==>
            m.destroyedAt.value >= Promise(cfg, m))
  {
    hide Reachable, Consistent, Enabled, MarkDestroyed, R2;
    ReachableIsConsistent(cfg, s);
    RowFacts(cfg, s, id);
    TickIsExact(s, rows1, rows2, id);
    forall k | k in s.receipts && Counts(s, id, k) && s.receipts[k].burnAt.Some?
      ensures s.receipts[k].burnAt.value <= s.now
    {
      CopyFacts(cfg, s, k);
      if id !in rows1 {
        R2Copy(s, id, k);
      }
    }
    forall k | k in s.receipts && Counts(s, id, k) && s.receipts[k].revealedAt.None? ensures !R2(s, id) {
      UnopenedBlocksR2(s, id, k);
    }
  }

  lemma UnopenedBlocksR2(s: Db, id: MsgId, k: CopyKey)
    requires id in s.messages && k in s.receipts && Counts(s, id, k) && s.receipts[k].revealedAt.None?
    ensures !R2(s, id)
  {
  }

  lemma R2Copy(s: Db, id: MsgId, k: CopyKey)
    requires id in s.messages && R2(s, id) && k in s.receipts && Counts(s, id, k)
    ensures ReadOut(s.receipts[k], s.now) && s.messages[id].IsBurn()
  {
  }

  /** Rule R1 spares no one's window, the sender's included. */
  lemma ExpiryOutlastsEveryCopy(cfg: Config, s: Db, id: MsgId, k: CopyKey)
    requires Reachable(cfg, s) && id in s.messages && R1(s, id) && !s.BurnedDown(s.messages[id].conv)
    requires k in s.receipts && k.msg == id && s.receipts[k].burnAt.Some?
    ensures s.receipts[k].RunOut(s.now)
  {
    ReachableIsConsistent(cfg, s);
    assert MessageOk(cfg, s, id) && CopyOk(s, k);
  }

  /** The copies of a marked message are frozen until it is purged. */
  lemma MarkedCopiesAreFrozen(cfg: Config, s: Db, rows1: seq<MsgId>, rows2: seq<MsgId>, id: MsgId, ops: seq<Op>, k: CopyKey)
    requires Reachable(cfg, s) && Enabled(s, OpMarkDestroyed(rows1, rows2))
    requires NewlyMarked(s, MarkDestroyed(s, rows1, rows2), id) && !s.BurnedDown(s.messages[id].conv)
    requires Run(cfg, MarkDestroyed(s, rows1, rows2), ops)
    requires k in s.receipts && Counts(s, id, k)
    ensures
      var s' := Exec(cfg, MarkDestroyed(s, rows1, rows2), ops);
      id in s'.messages ==>
        && k in s'.receipts && s'.receipts[k].burnAt == s.receipts[k].burnAt
        && s'.receipts[k].revealedAt == s.receipts[k].revealedAt
  {
    var s1 := MarkDestroyed(s, rows1, rows2);
    NoEarlyBurn(cfg, s, rows1, rows2, id);
    ReachableIsConsistent(cfg, s);
    MarkDestroyedIsSafe(cfg, s, rows1, rows2);
    RunIsSafe(cfg, s1, ops);
    RunOutCopyIsFrozen(cfg, s1, Exec(cfg, s1, ops), k);
  }

  /** A copy of a gone message that is closed, or has run out, does not move again. */
  lemma RunOutCopyIsFrozen(cfg: Config, s: Db, s': Db, k: CopyKey)
    requires Consistent(cfg, s) && Safe(cfg, s, s')
    requires k in s.receipts && k.msg in s.messages && Gone(s.messages[k.msg], s.now)
    requires s.receipts[k].burnAt.Some? ==> s.receipts[k].burnAt.value <= s.now
    ensures k.msg in s'.messages ==>
              && k in s'.receipts && s'.receipts[k].burnAt == s.receipts[k].burnAt
              && s'.receipts[k].revealedAt == s.receipts[k].revealedAt
  {
    hide Consistent, Evolves;
    CopyFacts(cfg, s, k);
    CopyMoves(cfg, s, s', k);
  }

  /** Deadlines and countdowns are where they were. */
  ghost predicate SameClocks(s: Db, s': Db) {
    && (forall id | id in s.messages && id in s'.messages :: s'.messages[id].destroyAt == s.messages[id].destroyAt)
    && (forall k | k in s.receipts && k in s'.receipts ::
          s'.receipts[k].burnAt == s.receipts[k].burnAt && s'.receipts[k].revealedAt == s.receipts[k].revealedAt)
  }

  predicate NoNewCopies(s: Db, s': Db) {
    s'.receipts.Keys <= s.receipts.Keys
  }

  predicate MovesClocks(op: Op) {
    op.OpReveal? || op.OpConsume? || op.OpOwnerDissolve? || op.OpDissolveOnAccountDelete?
  }

  lemma EditingKeepsClocks(cfg: Config, s: Db, op: Op)
    requires op.OpElapse? || op.OpEdit? || op.OpRecall? || op.OpPatchOriginal?
    ensures SameClocks(s, Step(cfg, s, op)) && NoNewCopies(s, Step(cfg, s, op))
  {
  }

  lemma SendingKeepsClocks(cfg: Config, s: Db, op: Op)
    requires Consistent(cfg, s) && op.OpSend? && Enabled(s, op)
    ensures SameClocks(s, Step(cfg, s, op))
  {
    hide Compose;
    forall k | k in s.receipts ensures k.msg != op.id {
      assert CopyOk(s, k);
    }
  }

  lemma ReadingKeepsClocks(cfg: Config, s: Db, op: Op)
    requires op.OpMarkAsRead? || op.OpMarkMessagesRead?
    ensures SameClocks(s, Step(cfg, s, op)) && NoNewCopies(s, Step(cfg, s, op))
  {
    var ks := ReadStepShape(cfg, s, op);
    hide Step;
  }

  lemma MarkingKeepsClocks(cfg: Config, s: Db, op: Op)
    requires op.OpMarkDestroyed? || op.OpManualDestroy?
    ensures SameClocks(s, Step(cfg, s, op)) && NoNewCopies(s, Step(cfg, s, op))
  {
  }

  lemma PurgingKeepsClocks(cfg: Config, s: Db, op: Op)
    requires op.OpAck? || op.OpSweep?
    ensures SameClocks(s, Step(cfg, s, op)) && NoNewCopies(s, Step(cfg, s, op))
  {
    hide AckPurges, SweepPurges, AckError, Listed;
  }

  lemma ClocksKept(cfg: Config, s: Db, op: Op)
    requires Consistent(cfg, s) && Enabled(s, op) && !MovesClocks(op)
    ensures SameClocks(s, Step(cfg, s, op)) && (op.OpSend? || NoNewCopies(s, Step(cfg, s, op)))
  {
    hide Consistent, SameClocks, NoNewCopies;
    if DirectoryOp(op) {
      DirectoryStep(cfg, s, op);
      DirectoryKeepsClocks(s, Step(cfg, s, op));
    } else if op.OpSend? {
      SendingKeepsClocks(cfg, s, op);
    } else if op.OpMarkAsRead? || op.OpMarkMessagesRead? {
      ReadingKeepsClocks(cfg, s, op);
    } else if op.OpMarkDestroyed? || op.OpManualDestroy? {
      MarkingKeepsClocks(cfg, s, op);
    } else if op.OpAck? || op.OpSweep? {
      PurgingKeepsClocks(cfg, s, op);
    } else {
      EditingKeepsClocks(cfg, s, op);
    }
  }

  lemma DirectoryKeepsClocks(s: Db, s': Db)
    requires Directory(s, s')
    ensures SameClocks(s, s') && NoNewCopies(s, s')
  {
  }

  /** Only the user's own consume shortens an opened copy. */
  lemma OthersKeepCopy(cfg: Config, s: Db, op: Op, k: CopyKey)
    requires Consistent(cfg, s) && Enabled(s, op) && op != OpConsume(k.msg, k.user)
    requires k in s.receipts && s.receipts[k].revealedAt.Some?
    ensures
      var s' := Step(cfg, s, op);
      k in s'.receipts ==> s'.receipts[k].burnAt == s.receipts[k].burnAt && s'.receipts[k].revealedAt.Some?
  {
    if !MovesClocks(op) {
      hide Consistent;
      ClocksKept(cfg, s, op);
      hide Step;
    } else {
      hide Consistent, Enabled, RevealWindow, IsMediaBurn;
    }
  }

  lemma {:induction false} RunWithoutConsume(cfg: Config, s: Db, ops: seq<Op>, k: CopyKey)
    requires Consistent(cfg, s) && Run(cfg, s, ops) && OpConsume(k.msg, k.user) !in ops
    requires k in s.receipts && s.receipts[k].revealedAt.Some?
    ensures
      var s' := Exec(cfg, s, ops);
      k.msg in s'.messages ==> k in s'.receipts && s'.receipts[k].burnAt == s.receipts[k].burnAt
    decreases |ops|
  {
    if ops != [] {
      hide Consistent, Evolves, Step;
      var s1 := Step(cfg, s, ops[0]);
      OthersKeepCopy(cfg, s, ops[0], k);
      StepIsSafe(cfg, s, ops[0]);
      RunIsSafe(cfg, s1, ops[1..]);
      KeptWhilePresent(cfg, s, s1, Exec(cfg, s, ops), k);
      if k in s1.receipts {
        RunWithoutConsume(cfg, s1, ops[1..], k);
      }
    }
  }

  /** A row present at the end of a run was present all along, with its copies. */
  lemma KeptWhilePresent(cfg: Config, s: Db, s1: Db, s2: Db, k: CopyKey)
    requires Consistent(cfg, s) && Safe(cfg, s, s1) && Safe(cfg, s1, s2)
    requires k in s.receipts
    ensures k.msg in s2.messages ==> k.msg in s1.messages && k in s1.receipts
  {
    assert CopyOk(s, k);
    assert MessageEvolves(s, s1, k.msg);
    assert CopyEvolves(s, s1, k);
  }

  /**
   * A recipient who opens a copy and does not consume it keeps it for the whole window
   * granted at that moment, which is never shorter than the sender's setting.
   */
  lemma OpenedCopyGetsItsWindow(cfg: Config, s: Db, id: MsgId, u: UserId, duration: Option<int>, ops: seq<Op>,
                                rows1: seq<MsgId>, rows2: seq<MsgId>)
    requires Reachable(cfg, s) && FirstReveal(s, id, u) && u != s.messages[id].sender
    requires
      var s1 := Step(cfg, s, OpReveal(id, u, duration));
      var s2 := Exec(cfg, s1, ops);
      && Run(cfg, s1, ops) && OpConsume(id, u) !in ops
      && Enabled(s2, OpMarkDestroyed(rows1, rows2))
      && NewlyMarked(s2, MarkDestroyed(s2, rows1, rows2), id)
      && !s2.BurnedDown(s2.messages[id].conv)
    ensures
      var s2 := Exec(cfg, Step(cfg, s, OpReveal(id, u, duration)), ops);
      && s2.now >= s.now + RevealWindow(cfg, s.messages[id], duration) * 1000
      && RevealWindow(cfg, s.messages[id], duration) >= s.messages[id].burnTtl.value
  {
    var s1 := Step(cfg, s, OpReveal(id, u, duration));
    var s2 := Exec(cfg, s1, ops);
    var k := CopyKey(id, u);
    ReachableIsConsistent(cfg, s);
    RevealOpens(cfg, s, id, u, duration);
    StepIsSafe(cfg, s, OpReveal(id, u, duration));
    RunWithoutConsume(cfg, s1, ops, k);
    RunIsSafe(cfg, s1, ops);
    ReachableStep(cfg, s, OpReveal(id, u, duration));
    ReachableExtends(cfg, s1, ops);
    assert MessageEvolves(s, s1, id) && MessageEvolves(s1, s2, id);
    NoEarlyBurn(cfg, s2, rows1, rows2, id);
    assert Counts(s2, id, k);
  }

  lemma RevealOpens(cfg: Config, s: Db, id: MsgId, u: UserId, duration: Option<int>)
    requires FirstReveal(s, id, u)
    ensures
      var s1 := Step(cfg, s, OpReveal(id, u, duration));
      var k := CopyKey(id, u);
      && id in s1.messages && k in s1.receipts
      && s1.receipts[k].revealedAt == Some(s.now)
      && s1.receipts[k].burnAt == Some(s.now + RevealWindow(cfg, s.messages[id], duration) * 1000)
  {
    hide RevealWindow, IsMediaBurn;
  }

  lemma ReachableStep(cfg: Config, s: Db, op: Op)
    requires Reachable(cfg, s) && Enabled(s, op)
    ensures Reachable(cfg, Step(cfg, s, op))
  {
    hide Step, Enabled, Reachable;
    var one := [op];
    assert one[1..] == [];
    assert Run(cfg, s, one) && Exec(cfg, s, one) == Step(cfg, s, op) by {
      assert Run(cfg, Step(cfg, s, op), []);
      assert Exec(cfg, Step(cfg, s, op), []) == Step(cfg, s, op);
    }
    ReachableExtends(cfg, s, one);
  }

  lemma {:induction false} RunConcat(cfg: Config, s: Db, a: seq<Op>, b: seq<Op>)
    requires Run(cfg, s, a) && Run(cfg, Exec(cfg, s, a), b)
    ensures Run(cfg, s, a + b) && Exec(cfg, s, a + b) == Exec(cfg, Exec(cfg, s, a), b)
    decreases |a|
  {
    if a == [] {
      assert a + b == b;
    } else {
      hide Step, Enabled;
      RunConcat(cfg, Step(cfg, s, a[0]), a[1..], b);
      assert (a + b)[0] == a[0] && (a + b)[1..] == a[1..] + b;
    }
  }

  lemma ReachableExtends(cfg: Config, s: Db, ops: seq<Op>)
    requires Reachable(cfg, s) && Run(cfg, s, ops)
    ensures Reachable(cfg, Exec(cfg, s, ops))
  {
    var s0: Db, before: seq<Op> :| Initial(s0) && Run(cfg, s0, before) && s == Exec(cfg, s0, before);
    RunConcat(cfg, s0, before, ops);
  }

  // ----- bounded life -----

  datatype Grant = Grant(user: UserId, ms: nat)

  /** The windows first reveals of `id` opened along a run, in order. */
  function Grants(cfg: Config, s: Db, ops: seq<Op>, id: MsgId): seq<Grant>
    decreases |ops|
  {
    if ops == [] then
      []
    else
      GrantOf(cfg, s, ops[0], id) + Grants(cfg, Step(cfg, s, ops[0]), ops[1..], id)
  }

  function GrantOf(cfg: Config, s: Db, op: Op, id: MsgId): seq<Grant> {
    if op.OpReveal? && op.id == id && FirstReveal(s, id, op.user) then
      [Grant(op.user, RevealWindow(cfg, s.messages[id], op.duration) * 1000)]
    else
      []
  }

  function TotalMs(grants: seq<Grant>): nat {
    if grants == [] then 0 else grants[0].ms + TotalMs(grants[1..])
  }

  /** The deadline of a burn message whose conversation was not burned down. */
  predicate DueBy(s: Db, id: MsgId, bound: int) {
    id in s.messages && s.messages[id].IsBurn() && !s.BurnedDown(s.messages[id].conv) ==>
      s.messages[id].destroyAt.Some? && s.messages[id].destroyAt.value <= bound
  }

  lemma NoGrant(cfg: Config, s: Db, op: Op, id: MsgId)
    ensures TotalMs(GrantOf(cfg, s, op, id)) >= 0
    ensures !op.OpReveal? ==> TotalMs(GrantOf(cfg, s, op, id)) == 0
  {
    hide FirstReveal, RevealWindow;
  }

  /** A burn message whose deadline did not move, or whose conversation is burned down, is still due. */
  lemma DueStays(s: Db, s': Db, id: MsgId, bound: int, later: nat)
    requires id in s.messages && s.messages[id].IsBurn() && DueBy(s, id, bound)
    requires id in s'.messages ==>
               && SameOrigin(s.messages[id], s'.messages[id])
               && (s'.BurnedDown(s.messages[id].conv) || s'.messages[id].destroyAt == s.messages[id].destroyAt)
    requires s.BurnedDown(s.messages[id].conv) ==> s'.BurnedDown(s.messages[id].conv)
    ensures DueBy(s', id, bound + later)
  {
  }

  lemma StepExtendsByGrant(cfg: Config, s: Db, op: Op, id: MsgId, bound: int)
    requires Consistent(cfg, s) && Enabled(s, op)
    requires id in s.messages && s.messages[id].IsBurn() && DueBy(s, id, bound)
    ensures DueBy(Step(cfg, s, op), id, bound + TotalMs(GrantOf(cfg, s, op, id)))
  {
    hide Consistent, Evolves, Step, Enabled, GrantOf, TotalMs, DueBy;
    var s' := Step(cfg, s, op);
    RowFacts(cfg, s, id);
    StepIsSafe(cfg, s, op);
    RowMoves(cfg, s, s', id);
    ConvMoves(cfg, s, s', s.messages[id].conv);
    NoGrant(cfg, s, op, id);
    if op.OpReveal? {
      RevealExtendsByGrant(cfg, s, op, id, bound);
    } else {
      if op.OpConsume? {
        ConsumeKeepsDeadlines(cfg, s, op);
      } else if op.OpOwnerDissolve? || op.OpDissolveOnAccountDelete? {
        DissolveKeepsDeadlines(cfg, s, op, id);
      } else {
        ClocksKept(cfg, s, op);
      }
      DueStays(s, s', id, bound, TotalMs(GrantOf(cfg, s, op, id)));
    }
  }

  lemma ConsumeKeepsDeadlines(cfg: Config, s: Db, op: Op)
    requires op.OpConsume?
    ensures Step(cfg, s, op).messages == s.messages
  {
  }

  lemma RevealExtendsByGrant(cfg: Config, s: Db, op: Op, id: MsgId, bound: int)
    requires op.OpReveal? && id in s.messages && s.messages[id].IsBurn() && DueBy(s, id, bound)
    ensures DueBy(Step(cfg, s, op), id, bound + TotalMs(GrantOf(cfg, s, op, id)))
  {
    hide RevealWindow, IsMediaBurn;
    var grant := GrantOf(cfg, s, op, id);
    assert TotalMs(grant) == if grant == [] then 0 else grant[0].ms;
  }

  lemma DissolveKeepsDeadlines(cfg: Config, s: Db, op: Op, id: MsgId)
    requires (op.OpOwnerDissolve? || op.OpDissolveOnAccountDelete?) && id in s.messages
    ensures
      var s' := Step(cfg, s, op);
      && id in s'.messages
      && (s'.BurnedDown(s.messages[id].conv) || s'.messages[id].destroyAt == s.messages[id].destroyAt)
  {
  }

  lemma {:induction false} TotalOfConcat(a: seq<Grant>, b: seq<Grant>)
    ensures TotalMs(a + b) == TotalMs(a) + TotalMs(b)
  {
    if a == [] {
      assert a + b == b;
    } else {
      assert (a + b)[0] == a[0] && (a + b)[1..] == a[1..] + b;
      TotalOfConcat(a[1..], b);
    }
  }

  lemma LifeStep(cfg: Config, s: Db, op: Op, rest: seq<Op>, id: MsgId, bound: nat)
    requires Consistent(cfg, s) && Enabled(s, op) && Run(cfg, Step(cfg, s, op), rest)
    requires id in s.messages && s.messages[id].IsBurn() && DueBy(s, id, bound)
    ensures
      var s1 := Step(cfg, s, op);
      && Consistent(cfg, s1)
      && (id in s1.messages ==> s1.messages[id].IsBurn())
      && DueBy(s1, id, bound + TotalMs(GrantOf(cfg, s, op, id)))
      && (id !in s1.messages ==> forall b: int :: DueBy(Exec(cfg, s1, rest), id, b))
  {
    hide Consistent, Evolves, Step, GrantOf, Enabled, MessageOk, TotalMs, Exec, Run;
    var s1 := Step(cfg, s, op);
    StepIsSafe(cfg, s, op);
    RowMoves(cfg, s, s1, id);
    StepExtendsByGrant(cfg, s, op, id, bound);
    if id !in s1.messages {
      RunIsSafe(cfg, s1, rest);
      TombstonesStay(cfg, s1, Exec(cfg, s1, rest), id);
    }
  }

  lemma {:induction false} LifeFromHere(cfg: Config, s: Db, ops: seq<Op>, id: MsgId, bound: nat)
    requires Consistent(cfg, s) && Run(cfg, s, ops)
    requires id in s.messages && s.messages[id].IsBurn() && DueBy(s, id, bound)
    ensures DueBy(Exec(cfg, s, ops), id, bound + TotalMs(Grants(cfg, s, ops, id)))
    decreases |ops|
  {
    hide Consistent, Step, GrantOf, Enabled, DueBy;
    if ops == [] {
    } else {
      var s1, grant := Step(cfg, s, ops[0]), GrantOf(cfg, s, ops[0], id);
      assert Grants(cfg, s, ops, id) == grant + Grants(cfg, s1, ops[1..], id);
      LifeStep(cfg, s, ops[0], ops[1..], id, bound);
      TotalOfConcat(grant, Grants(cfg, s1, ops[1..], id));
      if id in s1.messages {
        LifeFromHere(cfg, s1, ops[1..], id, bound + TotalMs(grant));
      }
    }
  }

  /** Users who first-reveal are distinct, and had not revealed before. */
  lemma {:induction false} GrantsAreDistinct(cfg: Config, s: Db, ops: seq<Op>, id: MsgId)
    requires Consistent(cfg, s) && Run(cfg, s, ops)
    ensures forall g | g in Grants(cfg, s, ops, id) ::
              id in s.messages ==> CopyOf(s, id, g.user).revealedAt.None?
    ensures forall i, j | 0 <= i < j < |Grants(cfg, s, ops, id)| ::
              Grants(cfg, s, ops, id)[i].user != Grants(cfg, s, ops, id)[j].user
    ensures id in s.tombstones ==> Grants(cfg, s, ops, id) == []
    decreases |ops|
  {
    if ops != [] {
      var s1 := Step(cfg, s, ops[0]);
      var rest := Grants(cfg, s1, ops[1..], id);
      GrantOpens(cfg, s, ops[0], id);
      hide Consistent, Evolves, Step, GrantOf;
      StepIsSafe(cfg, s, ops[0]);
      GrantsAreDistinct(cfg, s1, ops[1..], id);
      forall g | g in rest && id in s.messages ensures CopyOf(s, id, g.user).revealedAt.None? {
        RevealedStays(cfg, s, s1, id, g.user);
      }
      if id in s.tombstones {
        TombstonesStay(cfg, s, s1, id);
      }
    }
  }

  /** A grant leaves the user's copy revealed. */
  lemma GrantOpens(cfg: Config, s: Db, op: Op, id: MsgId)
    requires Consistent(cfg, s)
    ensures |GrantOf(cfg, s, op, id)| <= 1
    ensures forall g | g in GrantOf(cfg, s, op, id) ::
              && id in s.messages && id in Step(cfg, s, op).messages
              && CopyOf(s, id, g.user).revealedAt.None?
              && CopyOf(Step(cfg, s, op), id, g.user).revealedAt.Some?
    ensures id in s.tombstones ==> GrantOf(cfg, s, op, id) == []
  {
    if GrantOf(cfg, s, op, id) != [] {
      RevealOpens(cfg, s, id, op.user, op.duration);
      RowFacts(cfg, s, id);
    }
  }

  lemma RevealedStays(cfg: Config, s: Db, s': Db, id: MsgId, u: UserId)
    requires Consistent(cfg, s) && Safe(cfg, s, s') && id in s.messages
    requires id in s'.messages ==> CopyOf(s', id, u).revealedAt.None?
    requires id in s'.tombstones ==> false
    ensures CopyOf(s, id, u).revealedAt.None?
  {
    var k := CopyKey(id, u);
    RowMoves(cfg, s, s', id);
    if k in s.receipts {
      CopyMoves(cfg, s, s', k);
    }
  }

  /**
   * The life of a burn message is bounded: its deadline is never later than what was
   * promised when it was sent plus the windows of the first reveals so far, and each user
   * opens at most one such window.
   */
  lemma BoundedLife(cfg: Config, s: Db, id: MsgId, draft: Draft, ops: seq<Op>)
    requires Reachable(cfg, s) && Enabled(s, OpSend(id, draft)) && SendError(s, draft).None?
    requires Run(cfg, Step(cfg, s, OpSend(id, draft)), ops)
    ensures
      var s1 := Step(cfg, s, OpSend(id, draft));
      var grants := Grants(cfg, s1, ops, id);
      var s' := Exec(cfg, s1, ops);
      && (forall i, j | 0 <= i < j < |grants| :: grants[i].user != grants[j].user)
      && (id in s'.messages && s'.messages[id].IsBurn() && !s'.BurnedDown(draft.conv) ==>
            && s'.messages[id].createdAt == s.now
            && s'.messages[id].destroyAt.Some?
            && Promise(cfg, s'.messages[id]) <= s'.messages[id].destroyAt.value
            && s'.messages[id].destroyAt.value <= Promise(cfg, s'.messages[id]) + TotalMs(grants))
  {
    var s1 := Step(cfg, s, OpSend(id, draft));
    ReachableIsConsistent(cfg, s);
    SentRow(cfg, s, id, draft);
    hide Consistent, Evolves, Step, Run, Exec, Grants, TotalMs, SendError, Enabled, Promise;
    StepIsSafe(cfg, s, OpSend(id, draft));
    GrantsAreDistinct(cfg, s1, ops, id);
    LifeOfSentRow(cfg, s1, ops, id);
  }

  lemma LifeOfSentRow(cfg: Config, s: Db, ops: seq<Op>, id: MsgId)
    requires Consistent(cfg, s) && Run(cfg, s, ops) && id in s.messages
    requires s.messages[id].IsBurn() ==> s.messages[id].destroyAt == Some(Promise(cfg, s.messages[id]))
    ensures
      var s' := Exec(cfg, s, ops);
      id in s'.messages && s'.messages[id].IsBurn() && !s'.BurnedDown(s.messages[id].conv) ==>
        && s'.messages[id].createdAt == s.messages[id].createdAt
        && s'.messages[id].destroyAt.Some?
        && Promise(cfg, s'.messages[id]) <= s'.messages[id].destroyAt.value
        && s'.messages[id].destroyAt.value <= Promise(cfg, s'.messages[id]) + TotalMs(Grants(cfg, s, ops, id))
  {
    hide Consistent, Evolves, Run, Exec, Grants, TotalMs;
    RunIsSafe(cfg, s, ops);
    RowMoves(cfg, s, Exec(cfg, s, ops), id);
    if s.messages[id].IsBurn() {
      LifeFromHere(cfg, s, ops, id, Promise(cfg, s.messages[id]));
    }
  }

  lemma SentRow(cfg: Config, s: Db, id: MsgId, draft: Draft)
    requires SendError(s, draft).None?
    ensures
      var s1 := Step(cfg, s, OpSend(id, draft));
      && id in s1.messages
      && s1.messages[id].conv == draft.conv
      && s1.messages[id].createdAt == s.now
      && (s1.messages[id].IsBurn() ==> s1.messages[id].destroyAt == Some(Promise(cfg, s1.messages[id])))
  {
    hide NewCopies;
  }

  // ----- expiry is absorbing -----

  /** Once a message is gone, no continuation of the run lets anybody open it. */
  lemma GoneForGood(cfg: Config, s: Db, ops: seq<Op>, id: MsgId, u: UserId)
    requires Reachable(cfg, s) && Run(cfg, s, ops)
    requires id in s.tombstones || (id in s.messages && Gone(s.messages[id], s.now))
    ensures
      var s' := Exec(cfg, s, ops);
      && (id in s'.messages ==> Gone(s'.messages[id], s'.now))
      && (id in s'.messages || id in s'.tombstones)
      && RevealError(s', id, u).Some?
  {
    hide Consistent, Evolves, Reachable;
    ReachableIsConsistent(cfg, s);
    RunIsSafe(cfg, s, ops);
    if id in s.tombstones {
      TombstonesStay(cfg, s, Exec(cfg, s, ops), id);
    } else {
      RowMoves(cfg, s, Exec(cfg, s, ops), id);
    }
  }

  /** Once a user's own copy has run out, no continuation of the run reopens it for that user. */
  lemma RunOutForGood(cfg: Config, s: Db, ops: seq<Op>, id: MsgId, u: UserId)
    requires Reachable(cfg, s) && Run(cfg, s, ops)
    requires CopyKey(id, u) in s.receipts && s.receipts[CopyKey(id, u)].RunOut(s.now)
    ensures
      var s' := Exec(cfg, s, ops);
      && (id in s'.messages ==> CopyOf(s', id, u).RunOut(s'.now))
      && RevealError(s', id, u).Some?
  {
    hide Consistent, Evolves, Reachable;
    ReachableIsConsistent(cfg, s);
    RunIsSafe(cfg, s, ops);
    ClockMoves(cfg, s, Exec(cfg, s, ops));
    CopyMoves(cfg, s, Exec(cfg, s, ops), CopyKey(id, u));
  }

  // ----- the remaining time shown to a reader -----

  /** The first reveal shows exactly the window it granted. */
  lemma FirstRevealShowsWindow(cfg: Config, s: Db, id: MsgId, u: UserId, duration: Option<int>)
    requires FirstReveal(s, id, u)
    ensures
      var (s', r) := Reveal(cfg, s, id, u, duration);
      r.Ok? && r.value.remainSeconds == RevealWindow(cfg, s.messages[id], duration)
      && r.value.burnAt == Some(s.now + RevealWindow(cfg, s.messages[id], duration) * 1000)
  {
    hide RevealWindow, IsMediaBurn;
  }

  /** An admitted reveal shows the time to the user's own burn_at: the minimum never bites. */
  lemma ShownTimeIsOwnTime(cfg: Config, s: Db, id: MsgId, u: UserId, duration: Option<int>)
    requires Reachable(cfg, s) && RevealError(s, id, u).None?
    ensures
      var (s', r) := Reveal(cfg, s, id, u, duration);
      && r.Ok? && r.value.burnAt.Some? && r.value.burnAt == CopyOf(s', id, u).burnAt
      && CopyKey(id, u) in s'.receipts
      && CopyOf(s', id, u).revealedAt.Some?
      && r.value.remainSeconds == CeilSeconds(r.value.burnAt.value - s.now)
  {
    ReachableIsConsistent(cfg, s);
    hide Consistent, RevealWindow, IsMediaBurn, Reachable;
    RowFacts(cfg, s, id);
    if FirstReveal(s, id, u) {
      FirstRevealShowsWindow(cfg, s, id, u, duration);
    } else {
      CopyFacts(cfg, s, CopyKey(id, u));
    }
  }

  /** However the run goes on, what a later reveal shows is no more than an earlier one showed. */
  lemma RemainingTimeNeverGrows(cfg: Config, s: Db, id: MsgId, u: UserId, d1: Option<int>, ops: seq<Op>, d2: Option<int>)
    requires Reachable(cfg, s) && RevealError(s, id, u).None?
    requires Run(cfg, Reveal(cfg, s, id, u, d1).0, ops)
    requires RevealError(Exec(cfg, Reveal(cfg, s, id, u, d1).0, ops), id, u).None?
    ensures
      var (s1, shown) := Reveal(cfg, s, id, u, d1);
      var again := Reveal(cfg, Exec(cfg, s1, ops), id, u, d2).1;
      shown.Ok? && again.Ok? && again.value.remainSeconds <= shown.value.remainSeconds
  {
    var s1 := Reveal(cfg, s, id, u, d1).0;
    var s2 := Exec(cfg, s1, ops);
    assert s1 == Step(cfg, s, OpReveal(id, u, d1));
    ShownTimeIsOwnTime(cfg, s, id, u, d1);
    ReachableStep(cfg, s, OpReveal(id, u, d1));
    ReachableExtends(cfg, s1, ops);
    ShownTimeIsOwnTime(cfg, s2, id, u, d2);
    hide Consistent, Evolves, Reachable;
    ReachableIsConsistent(cfg, s);
    ReachableIsConsistent(cfg, s1);
    RevealIsSafe(cfg, s, id, u, d1);
    RunIsSafe(cfg, s1, ops);
    ClockMoves(cfg, s, s1);
    ClockMoves(cfg, s1, s2);
    CopyMoves(cfg, s1, s2, CopyKey(id, u));
    assert !FirstReveal(s2, id, u);
    hide Reveal;
  }
}
