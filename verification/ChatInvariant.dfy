/**
 * What every step keeps (`Consistent`) and how every step may move the tables (`Evolves`).
 * `Evolves` is transitive, so it holds between any two states of a run; the theorems about
 * runs are read off it.
 */
module ChatInvariant {
  import opened Prelude
  import opened ChatDb
  import opened BurnSpec
  import opened ConversationSpec
  import opened Runs

  // ----- one state -----

  /** The earliest instant rule R1 may mark a burn message whose conversation was not burned down. */
  function Promise(cfg: Config, m: Message): nat
    requires m.IsBurn()
  {
    m.createdAt + Max(cfg.fallbackMs, m.burnTtl.value * 1000)
  }

  ghost predicate MessageOk(cfg: Config, s: Db, id: MsgId)
    requires id in s.messages
  {
    var m := s.messages[id];
    && id !in s.tombstones
    && m.conv in s.convs
    && m.createdAt <= s.now
    && m.destroyedAt.Some? == m.isDestroyed
    && m.destroyReason.Some? == m.isDestroyed
    && (m.isDestroyed ==> m.createdAt <= m.destroyedAt.value <= s.now)
    && (m.IsBurn() ==> 1 <= m.burnTtl.value <= MAX_BURN_TTL_SECONDS && m.destroyAt.Some?)
    && (m.destroyAt.Some? && !m.IsBurn() ==> s.BurnedDown(m.conv))
    && (s.BurnedDown(m.conv) && !m.isDestroyed ==> m.Expired(s.now))
    && (m.IsBurn() && !s.BurnedDown(m.conv) ==> m.destroyAt.value >= Promise(cfg, m))
  }

  ghost predicate CopyOk(s: Db, k: CopyKey)
    requires k in s.receipts
  {
    var r := s.receipts[k];
    && k.msg in s.messages
    && r.revealedAt.Some? == r.burnAt.Some?
    && (r.revealedAt.Some? ==>
          && r.isRead
          && s.messages[k.msg].IsBurn()
          && s.messages[k.msg].createdAt <= r.revealedAt.value <= s.now
          && r.revealedAt.value <= r.burnAt.value
          && s.messages[k.msg].destroyAt.Some?
          && (!s.BurnedDown(s.messages[k.msg].conv) ==> r.burnAt.value <= s.messages[k.msg].destroyAt.value))
  }

  ghost predicate AckOk(s: Db, k: CopyKey) {
    k.msg in s.messages && s.messages[k.msg].isDestroyed
  }

  ghost predicate ConvOk(s: Db, c: ConvId)
    requires c in s.convs
  {
    s.convs[c].dissolvedBy.Some? ==> s.convs[c].dissolvedAt.Some?
  }

  ghost predicate Consistent(cfg: Config, s: Db) {
    && (forall id | id in s.messages :: MessageOk(cfg, s, id))
    && (forall k | k in s.receipts :: CopyOk(s, k))
    && (forall k | k in s.acks :: AckOk(s, k))
    && (forall c | c in s.convs :: ConvOk(s, c))
  }

  // ----- two states -----

  predicate Gone(m: Message, now: Millis) {
    m.isDestroyed || m.Expired(now)
  }

  predicate SameOrigin(m: Message, m': Message) {
    && m'.conv == m.conv && m'.sender == m.sender && m'.kind == m.kind
    && m'.createdAt == m.createdAt && m'.burnTtl == m.burnTtl
  }

  predicate Commemorates(t: Tombstone, m: Message) {
    t.conv == m.conv && t.sender == m.sender && t.kind == m.kind && t.createdAt == m.createdAt
  }

  ghost predicate MessageEvolves(s: Db, s': Db, id: MsgId)
    requires id in s.messages
  {
    var m := s.messages[id];
    if id in s'.messages then
      var m' := s'.messages[id];
      && SameOrigin(m, m')
      && (m.isDestroyed ==> m'.isDestroyed && m'.destroyedAt == m.destroyedAt && m'.destroyReason == m.destroyReason)
      && (!m.isDestroyed && m'.isDestroyed ==> m'.destroyedAt.Some? && s.now <= m'.destroyedAt.value <= s'.now)
      && (Gone(m, s.now) ==> Gone(m', s'.now))
    else
      && id in s'.tombstones
      && var t := s'.tombstones[id];
         && Commemorates(t, m)
         && (m.isDestroyed ==> m.destroyedAt == Some(t.destroyedAt) && m.destroyReason == Some(t.destroyReason))
         && (!m.isDestroyed ==> s.now <= t.destroyedAt <= s'.now)
  }

  ghost predicate CopyEvolves(s: Db, s': Db, k: CopyKey)
    requires k in s.receipts && k.msg in s.messages
  {
    k.msg in s'.messages ==>
      && k in s'.receipts
      && var r, r' := s.receipts[k], s'.receipts[k];
         && (r.isRead ==> r'.isRead)
         && (r.revealedAt.Some? ==> r'.revealedAt == r.revealedAt)
         && (r.burnAt.Some? ==>
               && r'.burnAt.Some?
               && r'.burnAt.value <= r.burnAt.value
               && (r'.burnAt == r.burnAt || s.now <= r'.burnAt.value))
         && (Gone(s.messages[k.msg], s.now) && r.revealedAt.None? ==> r'.revealedAt.None?)
  }

  ghost predicate ConvEvolves(s: Db, s': Db, c: ConvId)
    requires c in s.convs
  {
    && c in s'.convs
    && s'.convs[c].kind == s.convs[c].kind
    && (s.BurnedDown(c) ==> s'.convs[c].dissolvedBy == s.convs[c].dissolvedBy)
  }

  ghost predicate Evolves(s: Db, s': Db) {
    && s.now <= s'.now
    && (forall id | id in s.messages :: MessageEvolves(s, s', id))
    && (forall id | id in s'.messages :: id in s.messages || (id !in s.tombstones && s.now <= s'.messages[id].createdAt))
    && (forall id | id in s.tombstones :: id in s'.tombstones && s'.tombstones[id] == s.tombstones[id])
    && (forall k | k in s.receipts && k.msg in s.messages :: CopyEvolves(s, s', k))
    && (forall k | k in s'.receipts && k !in s.receipts && k.msg in s.messages && Gone(s.messages[k.msg], s.now) ::
          s'.receipts[k].revealedAt.None?)
    && (forall c | c in s.convs :: ConvEvolves(s, s', c))
  }

  lemma EvolvesReflexive(cfg: Config, s: Db)
    requires Consistent(cfg, s)
    ensures Evolves(s, s)
  {
    assert forall id | id in s.messages :: MessageOk(cfg, s, id);
  }

  lemma MessageEvolvesTransitive(cfg: Config, s0: Db, s1: Db, s2: Db, id: MsgId)
    requires Consistent(cfg, s1) && Evolves(s0, s1) && Evolves(s1, s2)
    requires id in s0.messages
    ensures MessageEvolves(s0, s2, id)
  {
    assert MessageEvolves(s0, s1, id);
    if id in s1.messages {
      assert MessageOk(cfg, s1, id);
      assert MessageEvolves(s1, s2, id);
    } else {
      assert s2.tombstones[id] == s1.tombstones[id];
      assert id !in s2.messages;
    }
  }

  lemma CopyEvolvesTransitive(cfg: Config, s0: Db, s1: Db, s2: Db, k: CopyKey)
    requires Consistent(cfg, s1) && Evolves(s0, s1) && Evolves(s1, s2)
    requires k in s0.receipts && k.msg in s0.messages
    ensures CopyEvolves(s0, s2, k)
  {
    assert MessageEvolves(s0, s1, k.msg);
    assert CopyEvolves(s0, s1, k);
    if k.msg in s2.messages {
      assert k.msg in s1.messages;
      assert CopyEvolves(s1, s2, k);
    }
  }

  lemma EvolvesTransitive(cfg: Config, s0: Db, s1: Db, s2: Db)
    requires Consistent(cfg, s0) && Consistent(cfg, s1) && Consistent(cfg, s2)
    requires Evolves(s0, s1) && Evolves(s1, s2)
    ensures Evolves(s0, s2)
  {
    forall id | id in s0.messages ensures MessageEvolves(s0, s2, id) {
      MessageEvolvesTransitive(cfg, s0, s1, s2, id);
    }
    forall k | k in s0.receipts && k.msg in s0.messages ensures CopyEvolves(s0, s2, k) {
      CopyEvolvesTransitive(cfg, s0, s1, s2, k);
    }
    forall k | k in s2.receipts && k !in s0.receipts && k.msg in s0.messages && Gone(s0.messages[k.msg], s0.now)
      ensures s2.receipts[k].revealedAt.None?
    {
      assert CopyOk(s2, k);
      assert MessageEvolves(s0, s1, k.msg);
      assert k.msg in s1.messages;
      if k in s1.receipts {
        assert CopyEvolves(s1, s2, k);
      }
    }
    forall c | c in s0.convs ensures ConvEvolves(s0, s2, c) {
      assert ConvEvolves(s0, s1, c);
      assert ConvEvolves(s1, s2, c);
    }
  }

  // ----- every kind of step -----

  ghost predicate Safe(cfg: Config, s: Db, s': Db) {
    Consistent(cfg, s') && Evolves(s, s')
  }

  /** What a step owes to a message row that was there before it. */
  ghost predicate RowStep(cfg: Config, s: Db, s': Db, id: MsgId)
    requires id in s.messages
  {
    MessageEvolves(s, s', id) && (id in s'.messages ==> MessageOk(cfg, s', id))
  }

  ghost predicate CopyStep(s: Db, s': Db, k: CopyKey)
    requires k in s.receipts && k.msg in s.messages
  {
    CopyEvolves(s, s', k) && (k in s'.receipts ==> CopyOk(s', k))
  }

  ghost predicate NewRow(cfg: Config, s: Db, s': Db, id: MsgId)
    requires id in s'.messages
  {
    id !in s.tombstones && s.now <= s'.messages[id].createdAt && MessageOk(cfg, s', id)
  }

  ghost predicate NewCopy(s: Db, s': Db, k: CopyKey)
    requires k in s'.receipts
  {
    && CopyOk(s', k)
    && (k.msg in s.messages && Gone(s.messages[k.msg], s.now) ==> s'.receipts[k].revealedAt.None?)
  }

  ghost predicate ConvStep(s: Db, s': Db, c: ConvId)
    requires c in s.convs
  {
    ConvEvolves(s, s', c) && ConvOk(s', c)
  }

  lemma RowByRow(cfg: Config, s: Db, s': Db)
    requires Consistent(cfg, s) && s.now <= s'.now
    requires forall id | id in s.messages :: RowStep(cfg, s, s', id)
    requires forall id | id in s'.messages && id !in s.messages :: NewRow(cfg, s, s', id)
    requires forall id | id in s.tombstones :: id in s'.tombstones && s'.tombstones[id] == s.tombstones[id]
    requires forall k | k in s.receipts && k.msg in s.messages :: CopyStep(s, s', k)
    requires forall k | k in s'.receipts && k !in s.receipts :: NewCopy(s, s', k)
    requires forall k | k in s'.acks :: AckOk(s', k)
    requires forall c | c in s.convs :: ConvStep(s, s', c)
    requires forall c | c in s'.convs && c !in s.convs :: ConvOk(s', c)
    ensures Safe(cfg, s, s')
  {
    forall id | id in s'.messages ensures MessageOk(cfg, s', id) {
      if id in s.messages {
        assert RowStep(cfg, s, s', id);
      } else {
        assert NewRow(cfg, s, s', id);
      }
    }
    forall k | k in s'.receipts ensures CopyOk(s', k) {
      if k in s.receipts {
        assert CopyOk(s, k);
        assert CopyStep(s, s', k);
      } else {
        assert NewCopy(s, s', k);
      }
    }
    forall c | c in s'.convs ensures ConvOk(s', c) {
      if c in s.convs {
        assert ConvStep(s, s', c);
      }
    }
    assert forall id | id in s.messages :: RowStep(cfg, s, s', id) ==> MessageEvolves(s, s', id);
    assert forall k | k in s.receipts && k.msg in s.messages :: CopyStep(s, s', k) ==> CopyEvolves(s, s', k);
    assert forall c | c in s.convs :: ConvStep(s, s', c) ==> ConvEvolves(s, s', c);
  }

  lemma ElapseRow(cfg: Config, s: Db, dt: nat, x: MsgId)
    requires x in s.messages && MessageOk(cfg, s, x)
    ensures RowStep(cfg, s, s.(now := s.now + dt), x)
  {
  }

  lemma ElapseCopy(cfg: Config, s: Db, dt: nat, k: CopyKey)
    requires k in s.receipts && CopyOk(s, k) && MessageOk(cfg, s, k.msg)
    ensures CopyStep(s, s.(now := s.now + dt), k)
  {
  }

  lemma ElapseIsSafe(cfg: Config, s: Db, dt: nat)
    requires Consistent(cfg, s)
    ensures Safe(cfg, s, s.(now := s.now + dt))
  {
    var s' := s.(now := s.now + dt);
    assert forall k | k in s.acks :: AckOk(s, k);
    assert forall c | c in s.convs :: ConvOk(s, c);
    forall x | x in s.messages ensures RowStep(cfg, s, s', x) {
      ElapseRow(cfg, s, dt, x);
    }
    forall k | k in s.receipts && k.msg in s.messages ensures CopyStep(s, s', k) {
      ElapseCopy(cfg, s, dt, k);
    }
    RowByRow(cfg, s, s');
  }

  lemma SendRow(cfg: Config, s: Db, id: MsgId, d: Draft, x: MsgId)
    requires x in s.messages && MessageOk(cfg, s, x)
    requires id !in s.messages && id !in s.tombstones
    ensures RowStep(cfg, s, Send(cfg, s, id, d).0, x)
  {
  }

  lemma SendCopy(cfg: Config, s: Db, id: MsgId, d: Draft, k: CopyKey)
    requires k in s.receipts && CopyOk(s, k) && MessageOk(cfg, s, k.msg)
    requires id !in s.messages && id !in s.tombstones
    ensures CopyStep(s, Send(cfg, s, id, d).0, k)
  {
  }

  lemma SendIsSafe(cfg: Config, s: Db, id: MsgId, d: Draft)
    requires Consistent(cfg, s)
    requires id !in s.messages && id !in s.tombstones
    ensures Safe(cfg, s, Send(cfg, s, id, d).0)
  {
    var s' := Send(cfg, s, id, d).0;
    assert forall k | k in s.acks :: AckOk(s, k);
    assert forall c | c in s.convs :: ConvOk(s, c);
    forall k | k in s.receipts ensures k.msg != id {
      assert CopyOk(s, k);
    }
    forall x | x in s.messages ensures RowStep(cfg, s, s', x) {
      SendRow(cfg, s, id, d, x);
    }
    forall k | k in s.receipts && k.msg in s.messages ensures CopyStep(s, s', k) {
      SendCopy(cfg, s, id, d, k);
    }
    RowByRow(cfg, s, s');
  }

  lemma OpenCopyRow(cfg: Config, s: Db, id: MsgId, u: UserId, burnAt: Millis, x: MsgId)
    requires x in s.messages && MessageOk(cfg, s, x)
    requires FirstReveal(s, id, u) && s.now <= burnAt
    ensures RowStep(cfg, s, OpenCopy(s, id, u, burnAt), x)
  {
  }

  lemma OpenCopyCopy(cfg: Config, s: Db, id: MsgId, u: UserId, burnAt: Millis, k: CopyKey)
    requires k in s.receipts && CopyOk(s, k) && MessageOk(cfg, s, k.msg)
    requires FirstReveal(s, id, u) && s.now <= burnAt
    ensures CopyStep(s, OpenCopy(s, id, u, burnAt), k)
  {
  }

  lemma OpenedCopyOk(cfg: Config, s: Db, id: MsgId, u: UserId, burnAt: Millis)
    requires id in s.messages && MessageOk(cfg, s, id) && FirstReveal(s, id, u) && s.now <= burnAt
    ensures
      var s', k := OpenCopy(s, id, u, burnAt), CopyKey(id, u);
      CopyOk(s', k) && NewCopy(s, s', k)
  {
  }

  lemma OpenCopyIsSafe(cfg: Config, s: Db, id: MsgId, u: UserId, burnAt: Millis)
    requires Consistent(cfg, s) && FirstReveal(s, id, u) && s.now <= burnAt
    ensures Safe(cfg, s, OpenCopy(s, id, u, burnAt))
  {
    var s' := OpenCopy(s, id, u, burnAt);
    assert forall k | k in s.acks :: AckOk(s, k);
    assert forall c | c in s.convs :: ConvOk(s, c);
    RowFacts(cfg, s, id);
    OpenedCopyOk(cfg, s, id, u, burnAt);
    hide FirstReveal;
    forall x | x in s.messages ensures RowStep(cfg, s, s', x) {
      OpenCopyRow(cfg, s, id, u, burnAt, x);
    }
    forall k | k in s.receipts && k.msg in s.messages ensures CopyStep(s, s', k) {
      OpenCopyCopy(cfg, s, id, u, burnAt, k);
    }
    RowByRow(cfg, s, s');
  }

  lemma ConsumeRow(cfg: Config, s: Db, id: MsgId, u: UserId, x: MsgId)
    requires x in s.messages && MessageOk(cfg, s, x)
    ensures RowStep(cfg, s, Consume(s, id, u).0, x)
  {
  }

  lemma ConsumeCopy(cfg: Config, s: Db, id: MsgId, u: UserId, k: CopyKey)
    requires k in s.receipts && CopyOk(s, k) && MessageOk(cfg, s, k.msg)
    ensures CopyStep(s, Consume(s, id, u).0, k)
  {
  }

  lemma ConsumeTouchesReceipts(s: Db, id: MsgId, u: UserId)
    ensures
      var s' := Consume(s, id, u).0;
      s' == s.(receipts := s'.receipts) && s'.receipts.Keys == s.receipts.Keys
  {
    hide IsMediaBurn;
  }

  lemma ConsumeIsSafe(cfg: Config, s: Db, id: MsgId, u: UserId)
    requires Consistent(cfg, s)
    ensures Safe(cfg, s, Consume(s, id, u).0)
  {
    var s' := Consume(s, id, u).0;
    ConsumeTouchesReceipts(s, id, u);
    assert forall k | k in s.acks :: AckOk(s, k);
    assert forall c | c in s.convs :: ConvOk(s, c);
    hide Consume;
    forall x | x in s.messages ensures RowStep(cfg, s, s', x) {
      ConsumeRow(cfg, s, id, u, x);
    }
    forall k | k in s.receipts && k.msg in s.messages ensures CopyStep(s, s', k) {
      ConsumeCopy(cfg, s, id, u, k);
    }
    RowByRow(cfg, s, s');
  }

  /** The message with another text, link or flag, and the same timers and marks. */
  predicate SameTimers(m: Message, m': Message) {
    m' == m.(content := m'.content, isEdited := m'.isEdited, isRecalled := m'.isRecalled)
  }

  lemma EditRow(cfg: Config, s: Db, id: MsgId, m: Message, x: MsgId)
    requires x in s.messages && MessageOk(cfg, s, x)
    requires id in s.messages && SameTimers(s.messages[id], m)
    ensures RowStep(cfg, s, s.(messages := s.messages[id := m]), x)
  {
  }

  lemma EditCopy(cfg: Config, s: Db, id: MsgId, m: Message, k: CopyKey)
    requires k in s.receipts && CopyOk(s, k) && MessageOk(cfg, s, k.msg)
    requires id in s.messages && SameTimers(s.messages[id], m)
    ensures CopyStep(s, s.(messages := s.messages[id := m]), k)
  {
  }

  lemma EditIsSafe(cfg: Config, s: Db, id: MsgId, m: Message)
    requires Consistent(cfg, s)
    requires id in s.messages && SameTimers(s.messages[id], m)
    ensures Safe(cfg, s, s.(messages := s.messages[id := m]))
  {
    var s' := s.(messages := s.messages[id := m]);
    assert forall k | k in s.acks :: AckOk(s, k);
    assert forall c | c in s.convs :: ConvOk(s, c);
    forall x | x in s.messages ensures RowStep(cfg, s, s', x) {
      EditRow(cfg, s, id, m, x);
    }
    forall k | k in s.receipts && k.msg in s.messages ensures CopyStep(s, s', k) {
      EditCopy(cfg, s, id, m, k);
    }
    RowByRow(cfg, s, s');
  }

  lemma SetReadRow(cfg: Config, s: Db, ks: set<CopyKey>, x: MsgId)
    requires x in s.messages && MessageOk(cfg, s, x)
    ensures RowStep(cfg, s, SetRead(s, ks), x)
  {
  }

  lemma SetReadCopy(cfg: Config, s: Db, ks: set<CopyKey>, k: CopyKey)
    requires k in s.receipts && CopyOk(s, k) && MessageOk(cfg, s, k.msg)
    ensures CopyStep(s, SetRead(s, ks), k)
  {
  }

  lemma SetReadIsSafe(cfg: Config, s: Db, ks: set<CopyKey>)
    requires Consistent(cfg, s)
    ensures Safe(cfg, s, SetRead(s, ks))
  {
    var s' := SetRead(s, ks);
    assert forall k | k in s.acks :: AckOk(s, k);
    assert forall c | c in s.convs :: ConvOk(s, c);
    forall x | x in s.messages ensures RowStep(cfg, s, s', x) {
      SetReadRow(cfg, s, ks, x);
    }
    forall k | k in s.receipts && k.msg in s.messages ensures CopyStep(s, s', k) {
      SetReadCopy(cfg, s, ks, k);
    }
    RowByRow(cfg, s, s');
  }

  lemma MarkRowsRow(cfg: Config, s: Db, rows: set<MsgId>, reason: DestroyReason, x: MsgId)
    requires x in s.messages && MessageOk(cfg, s, x)
    ensures RowStep(cfg, s, MarkRows(s, rows, s.now, reason), x)
  {
  }

  lemma MarkRowsCopy(cfg: Config, s: Db, rows: set<MsgId>, reason: DestroyReason, k: CopyKey)
    requires k in s.receipts && CopyOk(s, k) && MessageOk(cfg, s, k.msg)
    ensures CopyStep(s, MarkRows(s, rows, s.now, reason), k)
  {
  }

  lemma MarkRowsIsSafe(cfg: Config, s: Db, rows: set<MsgId>, reason: DestroyReason)
    requires Consistent(cfg, s)
    ensures Safe(cfg, s, MarkRows(s, rows, s.now, reason))
  {
    var s' := MarkRows(s, rows, s.now, reason);
    forall k | k in s.acks ensures AckOk(s', k) {
      assert AckOk(s, k);
    }
    assert forall c | c in s.convs :: ConvOk(s, c);
    forall x | x in s.messages ensures RowStep(cfg, s, s', x) {
      MarkRowsRow(cfg, s, rows, reason, x);
    }
    forall k | k in s.receipts && k.msg in s.messages ensures CopyStep(s, s', k) {
      MarkRowsCopy(cfg, s, rows, reason, k);
    }
    RowByRow(cfg, s, s');
  }

  lemma RecordAcksRow(cfg: Config, s: Db, ids: set<MsgId>, u: UserId, x: MsgId)
    requires x in s.messages && MessageOk(cfg, s, x)
    ensures RowStep(cfg, s, RecordAcks(s, ids, u), x)
  {
  }

  lemma RecordAcksCopy(cfg: Config, s: Db, ids: set<MsgId>, u: UserId, k: CopyKey)
    requires k in s.receipts && CopyOk(s, k) && MessageOk(cfg, s, k.msg)
    ensures CopyStep(s, RecordAcks(s, ids, u), k)
  {
  }

  lemma RecordAcksIsSafe(cfg: Config, s: Db, ids: set<MsgId>, u: UserId)
    requires Consistent(cfg, s)
    requires forall id | id in ids :: id in s.messages && s.messages[id].isDestroyed
    ensures Safe(cfg, s, RecordAcks(s, ids, u))
  {
    var s' := RecordAcks(s, ids, u);
    assert forall k | k in s.acks :: AckOk(s, k);
    assert forall c | c in s.convs :: ConvOk(s, c);
    forall x | x in s.messages ensures RowStep(cfg, s, s', x) {
      RecordAcksRow(cfg, s, ids, u, x);
    }
    forall k | k in s.receipts && k.msg in s.messages ensures CopyStep(s, s', k) {
      RecordAcksCopy(cfg, s, ids, u, k);
    }
    RowByRow(cfg, s, s');
  }

  lemma PurgeRowsRow(cfg: Config, s: Db, ids: set<MsgId>, x: MsgId)
    requires x in s.messages && MessageOk(cfg, s, x)
    requires forall id | id in ids :: id in s.messages && s.messages[id].isDestroyed
    ensures RowStep(cfg, s, PurgeRows(s, ids), x)
  {
  }

  lemma PurgeRowsCopy(cfg: Config, s: Db, ids: set<MsgId>, k: CopyKey)
    requires k in s.receipts && CopyOk(s, k) && MessageOk(cfg, s, k.msg)
    requires forall id | id in ids :: id in s.messages && s.messages[id].isDestroyed
    ensures CopyStep(s, PurgeRows(s, ids), k)
  {
  }

  lemma PurgeRowsIsSafe(cfg: Config, s: Db, ids: set<MsgId>)
    requires Consistent(cfg, s)
    requires forall id | id in ids :: id in s.messages && s.messages[id].isDestroyed
    ensures Safe(cfg, s, PurgeRows(s, ids))
  {
    var s' := PurgeRows(s, ids);
    forall k | k in s'.acks ensures AckOk(s', k) {
      assert AckOk(s, k);
    }
    forall id | id in s.tombstones ensures id !in ids {
      assert id in ids ==> MessageOk(cfg, s, id);
    }
    assert forall c | c in s.convs :: ConvOk(s, c);
    forall x | x in s.messages ensures RowStep(cfg, s, s', x) {
      PurgeRowsRow(cfg, s, ids, x);
    }
    forall k | k in s.receipts && k.msg in s.messages ensures CopyStep(s, s', k) {
      PurgeRowsCopy(cfg, s, ids, k);
    }
    RowByRow(cfg, s, s');
  }

  lemma BurnDownRow(cfg: Config, s: Db, cs: set<ConvId>, operator: UserId, x: MsgId)
    requires x in s.messages && MessageOk(cfg, s, x)
    requires forall c | c in cs :: c in s.convs && s.convs[c].dissolvedAt.None? && s.convs[c].dissolvedBy.None?
    ensures RowStep(cfg, s, BurnDown(s, cs, operator), x)
  {
  }

  lemma BurnDownCopy(cfg: Config, s: Db, cs: set<ConvId>, operator: UserId, k: CopyKey)
    requires k in s.receipts && CopyOk(s, k) && MessageOk(cfg, s, k.msg)
    requires forall c | c in cs :: c in s.convs && s.convs[c].dissolvedAt.None? && s.convs[c].dissolvedBy.None?
    ensures CopyStep(s, BurnDown(s, cs, operator), k)
  {
  }

  lemma BurnDownIsSafe(cfg: Config, s: Db, cs: set<ConvId>, operator: UserId)
    requires Consistent(cfg, s)
    requires forall c | c in cs :: c in s.convs && s.convs[c].dissolvedAt.None?
    ensures Safe(cfg, s, BurnDown(s, cs, operator))
  {
    var s' := BurnDown(s, cs, operator);
    forall c | c in s.convs ensures ConvOk(s, c) && ConvStep(s, s', c) && (c in cs ==> s.convs[c].dissolvedBy.None?) {
      assert ConvOk(s, c);
    }
    forall k | k in s.acks ensures AckOk(s', k) {
      assert AckOk(s, k);
    }
    forall x | x in s.messages ensures RowStep(cfg, s, s', x) {
      BurnDownRow(cfg, s, cs, operator, x);
    }
    forall k | k in s.receipts && k.msg in s.messages ensures CopyStep(s, s', k) {
      BurnDownCopy(cfg, s, cs, operator, k);
    }
    RowByRow(cfg, s, s');
  }

  /** Requests that touch only conversations and member rows, and burn nothing down. */
  ghost predicate Directory(s: Db, s': Db) {
    && s' == s.(convs := s'.convs, members := s'.members)
    && (forall c | c in s.convs :: SameFate(s, s', c))
    && (forall c | c in s'.convs && c !in s.convs :: s'.convs[c].dissolvedBy.None?)
  }

  ghost predicate SameFate(s: Db, s': Db, c: ConvId)
    requires c in s.convs
  {
    && c in s'.convs
    && s'.convs[c].kind == s.convs[c].kind
    && s'.convs[c].dissolvedBy == s.convs[c].dissolvedBy
    && (s.convs[c].dissolvedAt.Some? ==> s'.convs[c].dissolvedAt.Some?)
  }

  lemma DirectoryIsSafe(cfg: Config, s: Db, s': Db)
    requires Consistent(cfg, s) && Directory(s, s')
    ensures Safe(cfg, s, s')
  {
    forall c | c in s.convs ensures ConvStep(s, s', c) {
      assert ConvOk(s, c);
      assert SameFate(s, s', c);
    }
    forall x | x in s.messages ensures RowStep(cfg, s, s', x) {
      assert MessageOk(cfg, s, x);
      assert SameFate(s, s', s.messages[x].conv);
    }
    forall k | k in s.receipts && k.msg in s.messages ensures CopyStep(s, s', k) {
      assert CopyOk(s, k);
      assert MessageOk(cfg, s, k.msg);
      assert SameFate(s, s', s.messages[k.msg].conv);
    }
    assert forall k | k in s.acks :: AckOk(s, k);
    RowByRow(cfg, s, s');
  }

  lemma SafeTransitive(cfg: Config, s0: Db, s1: Db, s2: Db)
    requires Consistent(cfg, s0) && Safe(cfg, s0, s1) && Safe(cfg, s1, s2)
    ensures Safe(cfg, s0, s2)
  {
    EvolvesTransitive(cfg, s0, s1, s2);
  }

  lemma ReadAndAdvanceIsSafe(cfg: Config, s: Db, ks: set<CopyKey>, c: ConvId, u: UserId, candidate: MsgId)
    requires Consistent(cfg, s)
    ensures Safe(cfg, s, AdvanceLastRead(SetRead(s, ks), c, u, candidate))
  {
    var s1 := SetRead(s, ks);
    SetReadIsSafe(cfg, s, ks);
    DirectoryIsSafe(cfg, s1, AdvanceLastRead(s1, c, u, candidate));
    SafeTransitive(cfg, s, s1, AdvanceLastRead(s1, c, u, candidate));
  }

  lemma ManualDestroyIsSafe(cfg: Config, s: Db, id: MsgId)
    requires Consistent(cfg, s)
    ensures Safe(cfg, s, ManualDestroy(s, id))
  {
    EvolvesReflexive(cfg, s);
    MarkRowsIsSafe(cfg, s, {id}, Manual);
  }

  lemma MarkDestroyedIsSafe(cfg: Config, s: Db, rows1: seq<MsgId>, rows2: seq<MsgId>)
    requires Consistent(cfg, s)
    ensures Safe(cfg, s, MarkDestroyed(s, rows1, rows2))
  {
    var s1 := AfterR1(s, rows1);
    MarkRowsIsSafe(cfg, s, Ids(rows1), FallbackExpired);
    MarkRowsIsSafe(cfg, s1, Ids(rows2), AllRead);
    SafeTransitive(cfg, s, s1, MarkDestroyed(s, rows1, rows2));
  }

  lemma AckIsSafe(cfg: Config, s: Db, c: ConvId, u: UserId, ids: seq<MsgId>)
    requires Consistent(cfg, s)
    ensures Safe(cfg, s, Ack(cfg, s, c, u, ids).0)
  {
    if AckError(s, c, u, ids).Some? || ids == [] {
      EvolvesReflexive(cfg, s);
    } else {
      var listed := Listed(s, c, ids);
      var s1 := RecordAcks(s, listed, u);
      RecordAcksIsSafe(cfg, s, listed, u);
      PurgeRowsIsSafe(cfg, s1, AckPurges(cfg, s, c, u, ids));
      SafeTransitive(cfg, s, s1, Ack(cfg, s, c, u, ids).0);
    }
  }

  lemma RevealIsSafe(cfg: Config, s: Db, id: MsgId, u: UserId, duration: Option<int>)
    requires Consistent(cfg, s)
    ensures Safe(cfg, s, Reveal(cfg, s, id, u, duration).0)
  {
    hide Consistent, Evolves;
    EvolvesReflexive(cfg, s);
    if FirstReveal(s, id, u) {
      OpenCopyIsSafe(cfg, s, id, u, s.now + RevealWindow(cfg, s.messages[id], duration) * 1000);
    }
  }

  /** An edit either is refused or rewrites one row with the same timers. */
  lemma EditsAreSafe(cfg: Config, s: Db, id: MsgId, s': Db)
    requires Consistent(cfg, s)
    requires s' == s || (id in s.messages && id in s'.messages && s' == s.(messages := s.messages[id := s'.messages[id]])
                         && SameTimers(s.messages[id], s'.messages[id]))
    ensures Safe(cfg, s, s')
  {
    hide Consistent, Evolves;
    if s' == s {
      EvolvesReflexive(cfg, s);
    } else {
      EditIsSafe(cfg, s, id, s'.messages[id]);
    }
  }

  lemma MarkAsReadIsSafe(cfg: Config, s: Db, c: ConvId, u: UserId, upTo: Option<MsgId>, newest: seq<MsgId>)
    requires Consistent(cfg, s)
    ensures Safe(cfg, s, MarkAsRead(s, c, u, upTo, newest))
  {
    EvolvesReflexive(cfg, s);
    if s.IsMember(c, u) {
      var ks := set k | k in s.receipts && BulkMarkable(s, c, u, ReadBound(s, c, upTo), k);
      SetReadIsSafe(cfg, s, ks);
      if newest != [] {
        ReadAndAdvanceIsSafe(cfg, s, ks, c, u, newest[0]);
      }
    }
  }

  lemma MarkMessagesReadIsSafe(cfg: Config, s: Db, c: ConvId, u: UserId, ids: seq<MsgId>, newest: seq<MsgId>)
    requires Consistent(cfg, s)
    ensures Safe(cfg, s, MarkMessagesRead(s, c, u, ids, newest).0)
  {
    EvolvesReflexive(cfg, s);
    var ks := ListedUnread(s, c, u, ids);
    SetReadIsSafe(cfg, s, ks);
    if newest != [] {
      ReadAndAdvanceIsSafe(cfg, s, ks, c, u, newest[0]);
    }
  }

  lemma BurnDownsAreSafe(cfg: Config, s: Db, kind: ConversationKind, c: ConvId, owner: UserId, operator: UserId,
                         failing: set<ConvId>)
    requires Consistent(cfg, s)
    ensures Safe(cfg, s, OwnerDissolve(s, kind, c, operator))
    ensures Safe(cfg, s, DissolveOnAccountDelete(s, owner, operator, failing))
  {
    EvolvesReflexive(cfg, s);
    if OwnerDissolveError(s, kind, c, operator).None? {
      BurnDownIsSafe(cfg, s, {c}, operator);
    }
    BurnDownIsSafe(cfg, s, OwnedGroups(s, owner) - failing, operator);
  }

  predicate DirectoryOp(op: Op) {
    || op.OpCreateGroup? || op.OpAddMembers? || op.OpRemoveMember? || op.OpTransferOwnership? || op.OpDissolveGroup?
    || op.OpCreateChannel? || op.OpSetVisibility? || op.OpSubscribe? || op.OpUnsubscribe? || op.OpOpenPrivate?
  }

  lemma DirectoryStep(cfg: Config, s: Db, op: Op)
    requires DirectoryOp(op) && Enabled(s, op)
    ensures Directory(s, Step(cfg, s, op))
  {
    if op.OpCreateGroup? || op.OpCreateChannel? || op.OpOpenPrivate? {
      NewConversationStep(cfg, s, op);
    } else if op.OpTransferOwnership? || op.OpDissolveGroup? || op.OpSetVisibility? {
      ConversationRowStep(cfg, s, op);
    } else {
      MemberRowStep(cfg, s, op);
    }
  }

  lemma NewConversationStep(cfg: Config, s: Db, op: Op)
    requires op.OpCreateGroup? || op.OpCreateChannel? || op.OpOpenPrivate?
    requires Enabled(s, op)
    ensures Directory(s, Step(cfg, s, op))
  {
    hide RepeatsOther, HasChannel, SharedPrivate, MemberRows, OwnerRow;
  }

  lemma ConversationRowStep(cfg: Config, s: Db, op: Op)
    requires op.OpTransferOwnership? || op.OpDissolveGroup? || op.OpSetVisibility?
    ensures Directory(s, Step(cfg, s, op))
  {
  }

  lemma RowsAndCount(s: Db, rows: map<MemberKey, Membership>, c: ConvId, n: int)
    ensures Directory(s, SetCount(s.(members := rows), c, n)) && Directory(s, s)
  {
  }

  lemma MemberRowStep(cfg: Config, s: Db, op: Op)
    requires op.OpAddMembers? || op.OpRemoveMember? || op.OpSubscribe? || op.OpUnsubscribe?
    ensures Directory(s, Step(cfg, s, op))
  {
    hide MemberRows, Newcomers, AddMembersError, RemoveMemberError, Directory, SetCount;
    RowsAndCount(s, s.members, 0, 0);
    if op.OpAddMembers? {
      var added := Newcomers(s, op.conv, op.memberIds);
      RowsAndCount(s, s.members + MemberRows(op.conv, added), op.conv, |s.Roster(op.conv)| + |added|);
    } else if op.OpRemoveMember? {
      var rows := s.members - {MemberKey(op.conv, op.user)};
      RowsAndCount(s, rows, op.conv, |s.(members := rows).Roster(op.conv)|);
    } else if op.conv in s.convs {
      var k, n := MemberKey(op.conv, op.user), s.convs[op.conv].memberCount;
      RowsAndCount(s, s.members[k := NEW_MEMBER], op.conv, n + 1);
      RowsAndCount(s, s.members - {k}, op.conv, n - 1);
    }
  }

  /** Every step of every run. */
  lemma StepIsSafe(cfg: Config, s: Db, op: Op)
    requires Consistent(cfg, s) && Enabled(s, op)
    ensures Safe(cfg, s, Step(cfg, s, op))
  {
    hide Consistent, Evolves;
    if DirectoryOp(op) {
      DirectoryStep(cfg, s, op);
      DirectoryIsSafe(cfg, s, Step(cfg, s, op));
    } else {
      match op
      case OpElapse(dt) => ElapseIsSafe(cfg, s, dt);
      case OpSend(id, draft) => SendIsSafe(cfg, s, id, draft);
      case OpReveal(id, u, duration) => RevealIsSafe(cfg, s, id, u, duration);
      case OpConsume(id, u) => ConsumeIsSafe(cfg, s, id, u);
      case OpEdit(id, u, text) => EditsAreSafe(cfg, s, id, Edit(s, id, u, text));
      case OpRecall(id, u) => EditsAreSafe(cfg, s, id, Recall(s, id, u));
      case OpPatchOriginal(id, u, url) => EditsAreSafe(cfg, s, id, PatchOriginal(s, id, u, url));
      case OpMarkAsRead(c, u, upTo, newest) => MarkAsReadIsSafe(cfg, s, c, u, upTo, newest);
      case OpMarkMessagesRead(c, u, ids, newest) => MarkMessagesReadIsSafe(cfg, s, c, u, ids, newest);
      case OpMarkDestroyed(rows1, rows2) => MarkDestroyedIsSafe(cfg, s, rows1, rows2);
      case OpManualDestroy(id) => ManualDestroyIsSafe(cfg, s, id);
      case OpAck(c, u, ids) => AckIsSafe(cfg, s, c, u, ids);
      case OpSweep(rows) => PurgeRowsIsSafe(cfg, s, SweepPurges(cfg, s, rows));
      case OpOwnerDissolve(kind, c, operator) => BurnDownsAreSafe(cfg, s, kind, c, operator, operator, {});
      case OpDissolveOnAccountDelete(owner, operator, failing) =>
        BurnDownsAreSafe(cfg, s, Group, 0, owner, operator, failing);
    }
  }

  lemma {:induction false} RunIsSafe(cfg: Config, s: Db, ops: seq<Op>)
    requires Consistent(cfg, s) && Run(cfg, s, ops)
    ensures Safe(cfg, s, Exec(cfg, s, ops))
    decreases |ops|
  {
    if ops == [] {
      EvolvesReflexive(cfg, s);
    } else {
      var s1 := Step(cfg, s, ops[0]);
      StepIsSafe(cfg, s, ops[0]);
      RunIsSafe(cfg, s1, ops[1..]);
      SafeTransitive(cfg, s, s1, Exec(cfg, s, ops));
    }
  }

  lemma ReachableIsConsistent(cfg: Config, s: Db)
    requires Reachable(cfg, s)
    ensures Consistent(cfg, s)
  {
    var s0: Db, ops: seq<Op> :| Initial(s0) && Run(cfg, s0, ops) && s == Exec(cfg, s0, ops);
    RunIsSafe(cfg, s0, ops);
  }

  // ----- reading single facts off the invariant -----

  lemma RowFacts(cfg: Config, s: Db, id: MsgId)
    requires Consistent(cfg, s) && id in s.messages
    ensures MessageOk(cfg, s, id)
  {
  }

  lemma CopyFacts(cfg: Config, s: Db, k: CopyKey)
    requires Consistent(cfg, s) && k in s.receipts
    ensures k.msg in s.messages && CopyOk(s, k) && MessageOk(cfg, s, k.msg)
  {
  }

  lemma RowMoves(cfg: Config, s: Db, s': Db, id: MsgId)
    requires Safe(cfg, s, s') && id in s.messages
    ensures MessageEvolves(s, s', id) && (id in s'.messages ==> MessageOk(cfg, s', id))
  {
  }

  lemma CopyMoves(cfg: Config, s: Db, s': Db, k: CopyKey)
    requires Consistent(cfg, s) && Safe(cfg, s, s') && k in s.receipts
    ensures k.msg in s.messages && CopyEvolves(s, s', k) && (k in s'.receipts ==> CopyOk(s', k))
  {
    assert CopyOk(s, k);
  }

  lemma ConvMoves(cfg: Config, s: Db, s': Db, c: ConvId)
    requires Safe(cfg, s, s') && c in s.convs
    ensures ConvEvolves(s, s', c)
  {
  }

  lemma ClockMoves(cfg: Config, s: Db, s': Db)
    requires Safe(cfg, s, s')
    ensures s.now <= s'.now
  {
  }

  lemma TombstonesStay(cfg: Config, s: Db, s': Db, id: MsgId)
    requires Safe(cfg, s, s') && id in s.tombstones
    ensures id in s'.tombstones && s'.tombstones[id] == s.tombstones[id] && id !in s'.messages
  {
    assert forall x | x in s'.messages :: MessageOk(cfg, s', x);
  }

  /** A request to mark as read does nothing, or reads some copies and then perhaps moves the caller's watermark. */
  lemma ReadStepShape(cfg: Config, s: Db, op: Op) returns (ks: set<CopyKey>)
    requires op.OpMarkAsRead? || op.OpMarkMessagesRead?
    ensures
      var s' := Step(cfg, s, op);
      || s' == s
      || s' == SetRead(s, ks)
      || (op.newest != [] && s' == AdvanceLastRead(SetRead(s, ks), op.conv, op.user, op.newest[0]))
  {
    hide SetRead, AdvanceLastRead, BulkMarkable, ListedUnread, MarkMessagesReadError, ReadBound;
    if op.OpMarkAsRead? {
      ks := set k | k in s.receipts && BulkMarkable(s, op.conv, op.user, ReadBound(s, op.conv, op.upTo), k);
    } else {
      ks := ListedUnread(s, op.conv, op.user, op.ids);
    }
  }
}
