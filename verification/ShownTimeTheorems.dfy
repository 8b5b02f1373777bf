/** The remaining time a reader is shown, by reveals and by listings alike, and what rounding the stored times adds. */
module ShownTimeTheorems {
  import opened Prelude
  import opened ChatDb
  import opened BurnSpec
  import opened Runs
  import opened ChatInvariant
  import opened BurnTheorems
  import opened ViewSpec
  import opened ViewTheorems

  /** The user's copy is open, and `n` seconds are what the tables say is left of it. */
  predicate TimeLeft(s: Db, u: UserId, id: MsgId, n: nat) {
    var k := CopyKey(id, u);
    && id in s.messages && !Gone(s.messages[id], s.now)
    && k in s.receipts && s.receipts[k].burnAt.Some? && !s.receipts[k].RunOut(s.now)
    && n == RemainSeconds(s.receipts[k].burnAt, s.messages[id].destroyAt, s.now)
  }

  /** The two ways the server tells a reader how much time is left. */
  datatype Telling =
    | ByReveal(duration: Option<int>)
    | ByListing(q: ListRequest, pages: Pages, item: Item)

  /** At `s` the server tells `u` that message `id` has `n` seconds left; the database is `s'` afterwards. */
  ghost predicate Tells(cfg: Config, s: Db, how: Telling, u: UserId, id: MsgId, n: nat, s': Db) {
    match how
    case ByReveal(duration) =>
      Reveal(cfg, s, id, u, duration).1.Ok? && n == Reveal(cfg, s, id, u, duration).1.value.remainSeconds
      && s' == Reveal(cfg, s, id, u, duration).0
    case ByListing(q, pages, item) =>
      && q.user == u && s.IsMember(q.conv, u) && PagesOf(s, q, pages) && item in ListMessages(s, q, pages).value
      && item.Opened? && item.id == id && n == item.remainSeconds && s' == s
  }

  /** An opened copy not run out, of a message not gone, in a reachable database: its time is the reader's own. */
  lemma OwnTime(cfg: Config, s: Db, u: UserId, id: MsgId)
    requires Reachable(cfg, s) && id in s.messages && !Gone(s.messages[id], s.now)
    requires CopyKey(id, u) in s.receipts && s.receipts[CopyKey(id, u)].burnAt.Some?
    ensures
      var r, m := s.receipts[CopyKey(id, u)], s.messages[id];
      m.destroyAt.Some? && r.burnAt.value <= m.destroyAt.value && r.revealedAt.Some?
  {
    hide Reachable, Consistent;
    ReachableIsConsistent(cfg, s);
    CopyFacts(cfg, s, CopyKey(id, u));
  }

  lemma RevealTells(cfg: Config, s: Db, id: MsgId, u: UserId, duration: Option<int>)
    requires Reachable(cfg, s) && RevealError(s, id, u).None?
    ensures
      var (s', r) := Reveal(cfg, s, id, u, duration);
      r.Ok? && TimeLeft(s', u, id, r.value.remainSeconds)
  {
    hide Reachable, Consistent, RevealWindow, IsMediaBurn, RemainSeconds;
    ReachableIsConsistent(cfg, s);
    RowFacts(cfg, s, id);
    WindowIsPositive(cfg, s.messages[id], duration);
    if !FirstReveal(s, id, u) {
      CopyFacts(cfg, s, CopyKey(id, u));
    }
  }

  lemma WindowIsPositive(cfg: Config, m: Message, duration: Option<int>)
    requires m.IsBurn() && m.burnTtl.value >= 1
    ensures RevealWindow(cfg, m, duration) >= 1
  {
    hide IsMediaBurn;
  }

  lemma ListingTells(cfg: Config, s: Db, q: ListRequest, pages: Pages, it: Item)
    requires Reachable(cfg, s) && s.IsMember(q.conv, q.user) && PagesOf(s, q, pages)
    requires it in ListMessages(s, q, pages).value && it.Opened?
    ensures TimeLeft(s, q.user, it.id, it.remainSeconds)
  {
    MergeIsCorrect(cfg, s, q, pages);
    forall id | id in pages.rows ensures id in RowKey(s, q) {}
    MergedParts(s, q.user, pages.rows);
    hide Merged, LiveView, GoneView, ListMessages, Reachable, PagesOf, RemainSeconds;
    assert BurnItem(s, q.user, it.id) == Some(it);
    OpenedItem(cfg, s, q.user, it);
  }

  lemma OpenedItem(cfg: Config, s: Db, u: UserId, it: Item)
    requires Reachable(cfg, s) && it.Opened? && it.id in s.messages && BurnItem(s, u, it.id) == Some(it)
    requires !Gone(s.messages[it.id], s.now)
    ensures TimeLeft(s, u, it.id, it.remainSeconds)
  {
    hide Reachable, Consistent, RemainSeconds;
    ReachableIsConsistent(cfg, s);
    CopyFacts(cfg, s, CopyKey(it.id, u));
  }

  lemma TellsTimeLeft(cfg: Config, s: Db, how: Telling, u: UserId, id: MsgId, n: nat, s': Db)
    requires Reachable(cfg, s) && Tells(cfg, s, how, u, id, n, s')
    ensures Reachable(cfg, s') && TimeLeft(s', u, id, n)
  {
    hide Reachable, TimeLeft, PagesOf, ListMessages;
    match how
    case ByReveal(duration) =>
      RevealTells(cfg, s, id, u, duration);
      ReachableStep(cfg, s, OpReveal(id, u, duration));
    case ByListing(q, pages, item) =>
      ListingTells(cfg, s, q, pages, item);
  }

  /** Between two states of a run in which the copy is open, its own deadline has not moved back. */
  lemma OwnDeadlineNeverGrows(cfg: Config, s: Db, ops: seq<Op>, u: UserId, id: MsgId, n: nat, n': nat)
    requires Reachable(cfg, s) && Run(cfg, s, ops)
    requires TimeLeft(s, u, id, n) && TimeLeft(Exec(cfg, s, ops), u, id, n')
    ensures
      var s', k := Exec(cfg, s, ops), CopyKey(id, u);
      && s.now <= s'.now && s'.receipts[k].burnAt.value <= s.receipts[k].burnAt.value
      && s.messages[id].destroyAt.Some? && s.receipts[k].burnAt.value <= s.messages[id].destroyAt.value
      && s'.messages[id].destroyAt.Some? && s'.receipts[k].burnAt.value <= s'.messages[id].destroyAt.value
  {
    hide Reachable, Run, Exec, Consistent, Evolves, RemainSeconds;
    var s' := Exec(cfg, s, ops);
    ReachableExtends(cfg, s, ops);
    ReachableIsConsistent(cfg, s);
    RunIsSafe(cfg, s, ops);
    ClockMoves(cfg, s, s');
    CopyMoves(cfg, s, s', CopyKey(id, u));
    OwnTime(cfg, s, u, id);
    OwnTime(cfg, s', u, id);
  }

  /**
   * Reveals and listings together, at any two moments of any run: the server never tells a
   * reader of more time than it told before, whichever way it told either.
   */
  lemma TimeToldNeverGrows(cfg: Config, s: Db, how: Telling, s1: Db, ops: seq<Op>, how': Telling, s2: Db,
                           u: UserId, id: MsgId, n: nat, n': nat)
    requires Reachable(cfg, s) && Tells(cfg, s, how, u, id, n, s1)
    requires Run(cfg, s1, ops) && Tells(cfg, Exec(cfg, s1, ops), how', u, id, n', s2)
    ensures n' <= n
  {
    hide Reachable, Run, Exec, Tells, TimeLeft;
    TellsTimeLeft(cfg, s, how, u, id, n, s1);
    ReachableExtends(cfg, s1, ops);
    TellsTimeLeft(cfg, Exec(cfg, s1, ops), how', u, id, n', s2);
    ThenAndNow(cfg, s1, ops, how', s2, u, id, n, n');
  }

  /** A telling changes the tables by one reveal at most. */
  lemma ToldFromTables(cfg: Config, s: Db, how: Telling, u: UserId, id: MsgId, n: nat, s': Db) returns (ops: seq<Op>)
    requires Tells(cfg, s, how, u, id, n, s')
    ensures Run(cfg, s, ops) && Exec(cfg, s, ops) == s'
  {
    hide PagesOf, ListMessages;
    if how.ByReveal? {
      ops := [OpReveal(id, u, how.duration)];
      assert ops[1..] == [];
      assert Step(cfg, s, ops[0]) == s';
      hide Step, Reveal;
    } else {
      ops := [];
    }
  }

  lemma ThenAndNow(cfg: Config, s: Db, ops: seq<Op>, how': Telling, s2: Db, u: UserId, id: MsgId, n: nat, n': nat)
    requires Reachable(cfg, s) && Run(cfg, s, ops) && Tells(cfg, Exec(cfg, s, ops), how', u, id, n', s2)
    requires TimeLeft(s, u, id, n) && TimeLeft(s2, u, id, n')
    ensures n' <= n
  {
    hide Reachable, Run, Exec, Tells;
    var more := ToldFromTables(cfg, Exec(cfg, s, ops), how', u, id, n', s2);
    RunConcat(cfg, s, ops, more);
    OwnDeadlineNeverGrows(cfg, s, ops + more, u, id, n, n');
  }

  // ----- stored times are whole seconds -----

  /** A DATETIME column without a fraction keeps the nearest second. */
  function Stored(t: Millis): Millis {
    (t + 500) / 1000 * 1000
  }

  lemma StoredIsNear(t: Millis, t': Millis)
    ensures t - 500 < Stored(t) <= t + 500
    ensures t <= t' ==> Stored(t) <= Stored(t')
  {
  }

  /** The seconds left as the rounded columns tell them. */
  function StoredTimeLeft(s: Db, u: UserId, id: MsgId): nat
    requires id in s.messages && s.messages[id].destroyAt.Some?
    requires CopyKey(id, u) in s.receipts && s.receipts[CopyKey(id, u)].burnAt.Some?
  {
    RemainSeconds(Some(Stored(s.receipts[CopyKey(id, u)].burnAt.value)), Some(Stored(s.messages[id].destroyAt.value)), s.now)
  }

  /**
   * Read from columns rounded to whole seconds, the time left still never grows from one
   * reading to the next, and it exceeds what was told before rounding by one second at most.
   */
  lemma RoundingAddsAtMostASecond(cfg: Config, s: Db, ops: seq<Op>, u: UserId, id: MsgId, n: nat, n': nat)
    requires Reachable(cfg, s) && Run(cfg, s, ops)
    requires TimeLeft(s, u, id, n) && TimeLeft(Exec(cfg, s, ops), u, id, n')
    requires s.messages[id].destroyAt.Some? && Exec(cfg, s, ops).messages[id].destroyAt.Some?
    ensures StoredTimeLeft(Exec(cfg, s, ops), u, id) <= StoredTimeLeft(s, u, id)
    ensures StoredTimeLeft(Exec(cfg, s, ops), u, id) <= n + 1
  {
    var s', k := Exec(cfg, s, ops), CopyKey(id, u);
    OwnDeadlineNeverGrows(cfg, s, ops, u, id, n, n');
    hide Reachable, Run, Exec;
    StoredIsNear(s.receipts[k].burnAt.value, s.messages[id].destroyAt.value);
    StoredIsNear(s'.receipts[k].burnAt.value, s'.messages[id].destroyAt.value);
    StoredIsNear(s'.receipts[k].burnAt.value, s.receipts[k].burnAt.value);
  }

  /** And that second does show: opened at .600 with a window of ten, the copy has eleven left at .700. */
  lemma RoundingShows()
    ensures RemainSeconds(Some(10600), Some(86400000), 600) == 10
    ensures RemainSeconds(Some(Stored(10600)), Some(Stored(86400000)), 700) == 11
  {
  }
}
