/** What dissolving a conversation does to its messages, for good; what recalling a message does. */
module DissolveTheorems {
  import opened Prelude
  import opened ChatDb
  import opened BurnSpec
  import opened ConversationSpec
  import opened Runs
  import opened ChatInvariant
  import opened BurnTheorems

  /**
   * The owner's dissolution stamps the conversation and expires every unmarked message of it,
   * whatever its deadline was; marked messages, copies, members and other conversations stay.
   */
  lemma OwnerDissolveBurnsDown(s: Db, kind: ConversationKind, c: ConvId, operator: UserId, id: MsgId)
    requires OwnerDissolveError(s, kind, c, operator).None? && id in s.messages
    ensures OwnerDissolve(s, kind, c, operator).messages.Keys == s.messages.Keys
    ensures
      var s' := OwnerDissolve(s, kind, c, operator);
      var m, m' := s.messages[id], s'.messages[id];
      && s'.BurnedDown(c) && s'.convs[c] == s.convs[c].(dissolvedAt := Some(s.now), dissolvedBy := Some(operator))
      && (forall d | d in s.convs && d != c :: s'.convs[d] == s.convs[d])
      && s' == s.(convs := s'.convs, messages := s'.messages)
      && (m.conv == c && !m.isDestroyed ==> m'.Expired(s'.now) && m' == m.(destroyAt := Some(s.now)))
      && (m.conv != c || m.isDestroyed ==> m' == m)
  {
  }

  /** Once a conversation is burned down, in every continuation of the run: none of its messages can be opened, and none can be added. */
  lemma BurnedDownForGood(cfg: Config, s: Db, ops: seq<Op>, c: ConvId, id: MsgId, u: UserId, d: Draft)
    requires Reachable(cfg, s) && s.BurnedDown(c) && Run(cfg, s, ops)
    ensures
      var s' := Exec(cfg, s, ops);
      && s'.BurnedDown(c)
      && (id in s'.messages && s'.messages[id].conv == c ==> Gone(s'.messages[id], s'.now) && RevealError(s', id, u).Some?)
      && (d.conv == c ==> SendError(s', d).Some?)
  {
    hide Reachable, Consistent, Evolves, Run, Exec;
    var s' := Exec(cfg, s, ops);
    ReachableIsConsistent(cfg, s);
    RunIsSafe(cfg, s, ops);
    ConvMoves(cfg, s, s', c);
    if id in s'.messages {
      RowFacts(cfg, s', id);
    }
    ConvFacts(cfg, s', c);
  }

  /**
   * From the owner's dissolution on, whatever follows: the conversation takes no message, none of
   * its messages can be opened, and the ones that were live at that moment are marked, purged,
   * or still expired; the dissolution itself touched nothing but deadlines in that conversation.
   */
  lemma OwnerDissolutionIsFinal(cfg: Config, s: Db, kind: ConversationKind, c: ConvId, operator: UserId, ops: seq<Op>,
                                id: MsgId, u: UserId, d: Draft)
    requires Reachable(cfg, s) && kind != Private && OwnerDissolveError(s, kind, c, operator).None?
    requires Run(cfg, OwnerDissolve(s, kind, c, operator), ops)
    ensures
      var s1 := OwnerDissolve(s, kind, c, operator);
      var s' := Exec(cfg, s1, ops);
      && (d.conv == c ==> SendError(s', d).Some?)
      && (id in s'.messages && s'.messages[id].conv == c ==> Gone(s'.messages[id], s'.now) && RevealError(s', id, u).Some?)
      && (id in s.messages && s.messages[id].conv == c ==> RevealError(s', id, u).Some? && (id in s'.messages || id in s'.tombstones))
      && (id in s.messages && s.messages[id].conv != c ==> s1.messages[id] == s.messages[id])
  {
    hide Reachable, Run, Exec, RevealError, SendError, OwnerDissolveError, OwnerDissolve;
    var s1 := OwnerDissolve(s, kind, c, operator);
    DissolveIsStep(cfg, s, kind, c, operator);
    ReachableStep(cfg, s, OpOwnerDissolve(kind, c, operator));
    DissolveBurns(s, kind, c, operator);
    BurnedDownForGood(cfg, s1, ops, c, id, u, d);
    if id in s.messages {
      OwnerDissolveBurnsDown(s, kind, c, operator, id);
      if s.messages[id].conv == c {
        GoneForGood(cfg, s1, ops, id, u);
      }
    }
  }

  lemma DissolveIsStep(cfg: Config, s: Db, kind: ConversationKind, c: ConvId, operator: UserId)
    requires kind != Private
    ensures Enabled(s, OpOwnerDissolve(kind, c, operator))
    ensures Step(cfg, s, OpOwnerDissolve(kind, c, operator)) == OwnerDissolve(s, kind, c, operator)
  {
  }

  lemma DissolveBurns(s: Db, kind: ConversationKind, c: ConvId, operator: UserId)
    requires OwnerDissolveError(s, kind, c, operator).None?
    ensures OwnerDissolve(s, kind, c, operator).BurnedDown(c)
  {
  }

  lemma ConvFacts(cfg: Config, s: Db, c: ConvId)
    requires Consistent(cfg, s) && c in s.convs
    ensures ConvOk(s, c)
  {
  }

  /** An administrator's dissolution closes a group and leaves every message as it was. */
  lemma AdminDissolveOnlyCloses(cfg: Config, s: Db, c: ConvId, d: Draft)
    requires c in s.convs && s.convs[c].kind == Group
    ensures
      var s' := DissolveGroup(s, c);
      && s' == s.(convs := s'.convs)
      && (s'.BurnedDown(c) <==> s.BurnedDown(c))
      && (d.conv == c ==> SendError(s', d).Some?)
  {
  }

  // ----- recall, edit, original file -----

  /** Only the author, within 48 hours, and only while the message is not destroyed. */
  predicate MayRecall(s: Db, id: MsgId, u: UserId) {
    id in s.messages && !s.messages[id].isDestroyed && s.messages[id].sender == u
    && s.now <= s.messages[id].createdAt + EDIT_WINDOW
  }

  /**
   * A recall takes effect exactly for the author in time; afterwards nobody can open or
   * consume the message, and nobody can edit it.
   */
  lemma RecallCloses(s: Db, id: MsgId, u: UserId, v: UserId, text: string)
    ensures
      var s' := Recall(s, id, u);
      && (!MayRecall(s, id, u) ==> s' == s)
      && (MayRecall(s, id, u) ==>
            && s'.messages == s.messages[id := s.messages[id].(isRecalled := true)]
            && RevealError(s', id, v).Some? && Consume(s', id, v).1.Err? && Edit(s', id, v, text) == s')
  {
    hide IsMediaBurn;
  }

  /** The link to the original file is filled in once, by the author, and never replaced. */
  lemma OriginalIsFilledOnce(s: Db, id: MsgId, u: UserId, v: UserId, url: string, other: string)
    requires id in s.messages && url != ""
    ensures
      var s' := PatchOriginal(s, id, u, url);
      && (Filled(s.messages[id].content.originalUrl) || s.messages[id].sender != u ==> s' == s)
      && (s' != s ==> PatchOriginal(s', id, v, other) == s' && s'.messages[id].content.originalUrl == Some(url))
  {
  }
}
