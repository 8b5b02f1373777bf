/** Consuming: who may, what it ends, and that it ends it for good. */
module ConsumeTheorems {
  import opened Prelude
  import opened ChatDb
  import opened BurnSpec
  import opened Runs
  import opened TimerTheorems
  import opened BurnTheorems
  import opened RevealTheorems

  /** The user opened a playable burn message of a conversation of theirs, and it was not recalled. */
  predicate HasPlayed(s: Db, id: MsgId, u: UserId) {
    && id in s.messages && MemberKey(s.messages[id].conv, u) in s.members
    && s.messages[id].burnTtl.Some? && Plays(s.messages[id]) && !s.messages[id].isRecalled
    && HasOpened(s, id, u)
  }

  /**
   * Who may consume what. It is accepted exactly for a playable burn message the member has
   * opened; it answers that it was done already exactly if the row is gone or the member's own
   * time is over, and then, as when it is refused, nothing changes.
   */
  lemma ConsumeIsAcceptedExactly(s: Db, id: MsgId, u: UserId)
    ensures
      var (s', r) := Consume(s, id, u);
      && (r == Ok(Consumed(false)) <==> HasPlayed(s, id, u) && !OwnTimeOver(s, id, u))
      && (r == Ok(Consumed(true)) <==> id !in s.messages || (HasPlayed(s, id, u) && OwnTimeOver(s, id, u)))
      && (r == Err(Forbidden) <==> id in s.messages && MemberKey(s.messages[id].conv, u) !in s.members)
      && (r == Err(BadRequest) <==> id in s.messages && MemberKey(s.messages[id].conv, u) in s.members && !HasPlayed(s, id, u))
      && (r != Ok(Consumed(false)) ==> s' == s)
  {
    if id in s.messages {
      MediaPlay(s.messages[id]);
    }
    hide IsMediaBurn, Plays;
  }

  lemma ConsumeEndsOwnTime(s: Db, id: MsgId, u: UserId)
    requires Consume(s, id, u).1 == Ok(Consumed(false))
    ensures
      var (s', k) := (Consume(s, id, u).0, CopyKey(id, u));
      && k in s.receipts && s' == s.(receipts := s.receipts[k := s.receipts[k].(burnAt := Some(s.now))])
  {
    hide IsMediaBurn;
  }

  /**
   * What an accepted consume does: it ends the caller's own time now and touches nothing else;
   * and from then on, in every continuation of the run, the caller's reveals are refused and a
   * repeated consume has nothing left to do.
   */
  lemma ConsumedForGood(cfg: Config, s: Db, id: MsgId, u: UserId, ops: seq<Op>, duration: Option<int>)
    requires Reachable(cfg, s) && Consume(s, id, u).1 == Ok(Consumed(false))
    requires Run(cfg, Consume(s, id, u).0, ops)
    ensures
      var (s1, k) := (Consume(s, id, u).0, CopyKey(id, u));
      var s' := Exec(cfg, s1, ops);
      && k in s.receipts && s1 == s.(receipts := s.receipts[k := s.receipts[k].(burnAt := Some(s.now))])
      && Reveal(cfg, s', id, u, duration).1.Err?
      && Consume(s', id, u).1 != Ok(Consumed(false)) && Consume(s', id, u).0 == s'
  {
    var s1 := Consume(s, id, u).0;
    var s' := Exec(cfg, s1, ops);
    assert s1 == Step(cfg, s, OpConsume(id, u));
    ConsumeEndsOwnTime(s, id, u);
    ReachableStep(cfg, s, OpConsume(id, u));
    hide Reachable, Run, Exec, Consume, RevealError, HasPlayed;
    RunOutForGood(cfg, s1, ops, id, u);
    ConsumeIsAcceptedExactly(s', id, u);
    RefusedReveal(cfg, s', id, u, duration);
    StaysOver(s', id, u);
  }

  lemma RefusedReveal(cfg: Config, s: Db, id: MsgId, u: UserId, duration: Option<int>)
    requires RevealError(s, id, u).Some?
    ensures Reveal(cfg, s, id, u, duration).1.Err?
  {
  }

  lemma StaysOver(s: Db, id: MsgId, u: UserId)
    requires id in s.messages ==> CopyOf(s, id, u).RunOut(s.now)
    ensures id in s.messages ==> OwnTimeOver(s, id, u)
    ensures id !in s.messages ==> !HasPlayed(s, id, u)
  {
  }
}
