/** Who may open a message, what the answer says, and that it says what was sent. */
module RevealTheorems {
  import opened Prelude
  import opened ChatDb
  import opened BurnSpec
  import opened Runs
  import opened ChatInvariant
  import opened TimerTheorems
  import opened SendTheorems
  import opened BurnTheorems
  import opened ContentTheorems

  /** The time is over, if there is one. */
  predicate Over(t: Option<Millis>, now: Millis) {
    t.Some? && t.value <= now
  }

  /** The user's own time for the message is over. */
  predicate OwnTimeOver(s: Db, id: MsgId, u: UserId) {
    CopyKey(id, u) in s.receipts && Over(s.receipts[CopyKey(id, u)].burnAt, s.now)
  }

  predicate HasOpened(s: Db, id: MsgId, u: UserId) {
    CopyKey(id, u) in s.receipts && s.receipts[CopyKey(id, u)].revealedAt.Some?
  }

  /** A row that is not marked, in a conversation the user belongs to. */
  predicate Accessible(s: Db, id: MsgId, u: UserId) {
    id in s.messages && !s.messages[id].isDestroyed && MemberKey(s.messages[id].conv, u) in s.members
  }

  /**
   * Who may open what: a member, a burn message that is neither marked nor recalled, before its
   * deadline and before the end of their own time. A refusal changes nothing and says why.
   */
  lemma RevealIsAdmittedExactly(cfg: Config, s: Db, id: MsgId, u: UserId, duration: Option<int>)
    ensures
      var (s', r) := Reveal(cfg, s, id, u, duration);
      && (r.Ok? <==> Accessible(s, id, u) && s.messages[id].burnTtl.Some? && !s.messages[id].isRecalled
                     && !Over(s.messages[id].destroyAt, s.now) && !OwnTimeOver(s, id, u))
      && (r == Err(Forbidden) <==> id in s.messages && !s.messages[id].isDestroyed && !Accessible(s, id, u))
      && (r == Err(BadRequest) <==> Accessible(s, id, u) && (s.messages[id].burnTtl.None? || s.messages[id].isRecalled))
      && (r.Err? ==> s' == s && r.error in {Forbidden, BadRequest, NotFound})
  {
    hide RevealWindow, IsMediaBurn;
  }

  /** The window a first reveal opens, in milliseconds. */
  function WindowMs(cfg: Config, m: Message, duration: Option<int>): nat
    requires m.burnTtl.Some?
  {
    RevealWindow(cfg, m, duration) * 1000
  }

  lemma RevealShape(cfg: Config, s: Db, id: MsgId, u: UserId, duration: Option<int>)
    requires RevealError(s, id, u).None?
    ensures
      var (s', r) := Reveal(cfg, s, id, u, duration);
      var m, k, burnAt := s.messages[id], CopyKey(id, u), s.now + WindowMs(cfg, s.messages[id], duration);
      && r.Ok? && id in s'.messages && r.value.message == s'.messages[id]
      && (HasOpened(s, id, u) ==> s' == s)
      && (!HasOpened(s, id, u) ==>
            && k in s'.receipts && s'.receipts[k] == Receipt(true, Some(s.now), Some(s.now), Some(burnAt))
            && s' == s.(messages := s.messages[id := r.value.message], receipts := s.receipts[k := s'.receipts[k]])
            && r.value.message == m.(destroyAt := r.value.message.destroyAt))
      && r.value.mediaPending == IsMediaBurn(m)
      && r.value.burnAt == CopyOf(s', id, u).burnAt
  {
    hide RevealWindow;
    MediaDependsOnKind(s.messages[id]);
    hide IsMediaBurn;
  }

  lemma MediaDependsOnKind(m: Message)
    ensures forall t :: IsMediaBurn(m.(destroyAt := t)) == IsMediaBurn(m)
  {
    hide HasSuffix, LowerCase;
  }

  lemma RevealedDeadline(cfg: Config, s: Db, id: MsgId, u: UserId, duration: Option<int>)
    requires RevealError(s, id, u).None? && s.messages[id].destroyAt.Some?
    ensures
      var s' := Reveal(cfg, s, id, u, duration).0;
      id in s'.messages && s'.messages[id].destroyAt == Some(
        if HasOpened(s, id, u) then s.messages[id].destroyAt.value
        else Max(s.messages[id].destroyAt.value, s.now + WindowMs(cfg, s.messages[id], duration)))
  {
    hide RevealWindow, IsMediaBurn;
  }

  /**
   * What an admitted reveal answers and leaves behind. The answer is the row as the tables now
   * hold it, with the caller's own time; the row is the one from before, except for a deadline
   * pushed back to the caller's own. A first reveal starts the caller's time and marks the copy
   * read; a later one changes nothing. Nobody else's copy and no other row moves. The answer asks
   * for a consume exactly for what can be played.
   */
  lemma RevealAnswers(cfg: Config, s: Db, id: MsgId, u: UserId, duration: Option<int>)
    requires Reachable(cfg, s) && Reveal(cfg, s, id, u, duration).1.Ok?
    ensures
      var (s', r) := Reveal(cfg, s, id, u, duration);
      var m, k := s.messages[id], CopyKey(id, u);
      && id in s.messages && m.burnTtl.Some? && m.destroyAt.Some?
      && id in s'.messages && r.value.message == s'.messages[id]
      && k in s'.receipts && r.value.burnAt.Some? && r.value.burnAt == s'.receipts[k].burnAt
      && (if HasOpened(s, id, u) then s' == s
          else
            && s'.receipts[k] == Receipt(true, Some(s.now), Some(s.now), Some(s.now + WindowMs(cfg, m, duration)))
            && s' == s.(messages := s.messages[id := r.value.message], receipts := s.receipts[k := s'.receipts[k]]))
      && r.value.message == m.(destroyAt := Some(Max(m.destroyAt.value, r.value.burnAt.value)))
      && r.value.message.content == m.content
      && (r.value.mediaPending <==> Plays(m))
  {
    AdmittedIsFree(cfg, s, id, u, duration);
    hide Reveal, RevealError, Reachable, RevealWindow, IsMediaBurn, Plays, Consistent;
    ReachableIsConsistent(cfg, s);
    RowFacts(cfg, s, id);
    RevealShape(cfg, s, id, u, duration);
    RevealedDeadline(cfg, s, id, u, duration);
    MediaPlay(s.messages[id]);
    if HasOpened(s, id, u) {
      CopyFacts(cfg, s, CopyKey(id, u));
    }
  }

  lemma AdmittedIsFree(cfg: Config, s: Db, id: MsgId, u: UserId, duration: Option<int>)
    requires Reveal(cfg, s, id, u, duration).1.Ok?
    ensures RevealError(s, id, u).None? && id in s.messages && s.messages[id].burnTtl.Some? && !Gone(s.messages[id], s.now)
  {
    hide RevealWindow, IsMediaBurn;
  }

  /**
   * A reader gets what was sent. Whatever happens between a send and an admitted reveal, in any
   * run: the answer carries the words, files or ciphertext of the draft, its author and its time.
   */
  lemma ReaderGetsWhatWasSent(cfg: Config, s: Db, id: MsgId, d: Draft, ops: seq<Op>, u: UserId, duration: Option<int>)
    requires Reachable(cfg, s) && Enabled(s, OpSend(id, d)) && Send(cfg, s, id, d).1.Ok?
    requires Run(cfg, Send(cfg, s, id, d).0, ops)
    requires Reveal(cfg, Exec(cfg, Send(cfg, s, id, d).0, ops), id, u, duration).1.Ok?
    ensures
      var (s1, sent) := Send(cfg, s, id, d);
      var got := Reveal(cfg, Exec(cfg, s1, ops), id, u, duration).1.value.message;
      && SaysDraft(d, sent.value) && SameWords(sent.value.content, got.content)
      && got.conv == d.conv && got.sender == d.sender && got.kind == d.kind && got.createdAt == s.now
      && got.isEncrypted == Sealed(d.content) && got.mediaDuration == d.mediaDuration && !got.isEdited && !got.isRecalled
  {
    var (s1, sent) := Send(cfg, s, id, d);
    var s2 := Exec(cfg, s1, ops);
    assert s1 == Step(cfg, s, OpSend(id, d));
    SentSaysDraft(cfg, s, id, d);
    ReachableStep(cfg, s, OpSend(id, d));
    hide Send, Reachable, Enabled, Step, Run, Exec, SaysDraft, SameWords;
    ReachableExtends(cfg, s1, ops);
    RevealIsAdmittedExactly(cfg, s2, id, u, duration);
    RevealAnswers(cfg, s2, id, u, duration);
    hide Reveal;
    SentIsBurn(cfg, s1, ops, id);
    BurnContentIsKept(cfg, s1, ops, id);
  }

  lemma SentIsBurn(cfg: Config, s: Db, ops: seq<Op>, id: MsgId)
    requires Reachable(cfg, s) && Run(cfg, s, ops) && id in s.messages && id in Exec(cfg, s, ops).messages
    ensures SameOrigin(s.messages[id], Exec(cfg, s, ops).messages[id])
  {
    hide Reachable, Run, Exec, Consistent, Evolves;
    ReachableIsConsistent(cfg, s);
    RunIsSafe(cfg, s, ops);
    RowMoves(cfg, s, Exec(cfg, s, ops), id);
  }
}
