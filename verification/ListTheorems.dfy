/** What a list request shows, said of the rows, receipts and tombstones alone. */
module ListTheorems {
  import opened Prelude
  import opened Query
  import opened ChatDb
  import opened Runs
  import opened ChatInvariant
  import opened TimerTheorems
  import opened RevealTheorems
  import opened ViewSpec
  import opened ViewTheorems

  /** Neither marked nor past its deadline. */
  predicate IsAlive(s: Db, id: MsgId) {
    id in s.messages && !s.messages[id].isDestroyed && !Over(s.messages[id].destroyAt, s.now)
  }

  /** The rows a request pages through. */
  predicate Asked(s: Db, q: ListRequest, id: MsgId) {
    && id in s.messages && s.messages[id].conv == q.conv
    && (q.before.Some? ==> s.messages[id].createdAt < q.before.value)
    && (q.includeDestroyed || IsAlive(s, id))
  }

  function PageSize(limit: nat): nat {
    if limit == 0 then 50 else limit
  }

  lemma RowsAsked(s: Db, q: ListRequest, id: MsgId)
    ensures id in RowKey(s, q) <==> Asked(s, q, id)
    ensures id in RowKey(s, q) ==> RowKey(s, q)[id] == -(s.messages[id].createdAt as int)
  {
  }

  /**
   * The page is the newest of what was asked for: only rows that were asked for, no more than the
   * size, and a row that is missing is no newer than any on the page, which is then full. Only a
   * stranger gets no answer.
   */
  lemma PageIsTheNewest(s: Db, q: ListRequest, pages: Pages, id: MsgId)
    requires PagesOf(s, q, pages)
    ensures |pages.rows| <= PageSize(q.limit)
    ensures id in pages.rows ==> Asked(s, q, id)
    ensures Asked(s, q, id) && id !in pages.rows ==>
              |pages.rows| == PageSize(q.limit)
              && forall r | r in pages.rows :: r in s.messages && s.messages[id].createdAt <= s.messages[r].createdAt
    ensures ListMessages(s, q, pages).Err? <==> MemberKey(q.conv, q.user) !in s.members
    ensures ListMessages(s, q, pages).Err? ==> ListMessages(s, q, pages).error == Forbidden
  {
    RowsAsked(s, q, id);
    forall r | r in pages.rows ensures r in s.messages && RowKey(s, q)[r] == -(s.messages[r].createdAt as int) {
      RowsAsked(s, q, r);
    }
    hide RowKey, Asked, Attach, Merged, RangeOf;
    if id in RowKey(s, q) && id !in pages.rows {
      PageMisses(pages.rows, RowKey(s, q), q.Size(), id);
    }
  }

  /** The message without anything that was said. */
  predicate Wordless(m: Message, blurred: Message) {
    blurred == m.(content := Content(None, None, None, None, None, None, None, None))
  }

  /** How a reader sees a live row: whole, whole with their own time, blurred, or not at all. */
  ghost predicate SeenAs(s: Db, u: UserId, id: MsgId, out: seq<Item>)
    requires id in s.messages
  {
    var m, k := s.messages[id], CopyKey(id, u);
    if m.burnTtl.None? then
      Plain(id, m) in out
    else if OwnTimeOver(s, id, u) then
      forall it | it in out :: it.id != id
    else if HasOpened(s, id, u) then
      exists it | it in out :: it.Opened? && it.id == id && it.message == m && it.burnAt == s.receipts[k].burnAt
                               && it.burnAt.Some? && LeastCover(it.remainSeconds, it.burnAt.value - s.now)
    else
      exists it | it in out :: it.Blurred? && it.id == id && Wordless(m, it.message)
  }

  lemma ViewOfRow(cfg: Config, s: Db, u: UserId, id: MsgId)
    requires Reachable(cfg, s) && IsAlive(s, id)
    ensures
      var m, k, it := s.messages[id], CopyKey(id, u), BurnItem(s, u, id);
      if m.burnTtl.None? then it == Some(Plain(id, m))
      else if OwnTimeOver(s, id, u) then it.None?
      else if HasOpened(s, id, u) then
        && it.Some? && it.value.Opened? && it.value.id == id && it.value.message == m
        && it.value.burnAt == s.receipts[k].burnAt && it.value.burnAt.Some?
        && LeastCover(it.value.remainSeconds, it.value.burnAt.value - s.now)
      else it.Some? && it.value.Blurred? && it.value.id == id && Wordless(m, it.value.message)
  {
    hide Reachable, Consistent;
    ReachableIsConsistent(cfg, s);
    RowFacts(cfg, s, id);
    var k := CopyKey(id, u);
    if k in s.receipts {
      CopyFacts(cfg, s, k);
      if s.receipts[k].burnAt.Some? && s.messages[id].destroyAt.Some? {
        RemainIsLeastCover(s.receipts[k].burnAt, s.messages[id].destroyAt, s.now);
      }
    }
  }

  /**
   * Every live row of the page is in the answer as its reader may see it: an ordinary message
   * whole; a burn message the reader has opened whole, with their own time; an unopened one
   * without a word; and it is left out exactly when the reader's own time is over.
   */
  lemma LiveRowsAreListed(cfg: Config, s: Db, q: ListRequest, pages: Pages, id: MsgId)
    requires Reachable(cfg, s) && s.IsMember(q.conv, q.user) && PagesOf(s, q, pages)
    requires id in pages.rows && IsAlive(s, id)
    ensures ListMessages(s, q, pages).Ok? && SeenAs(s, q.user, id, ListMessages(s, q, pages).value)
  {
    var out, item := ListMessages(s, q, pages).value, BurnItem(s, q.user, id);
    MergeIsCorrect(cfg, s, q, pages);
    MergedParts(s, q.user, pages.rows);
    ViewOfRow(cfg, s, q.user, id);
    AliveIsNotGone(cfg, s, q.conv, id);
    hide Reachable, PagesOf, ListMessages, Merged, LiveView, GoneView, BurnItem, StandIn, DistinctIds, IsAlive;
    if item.Some? {
      assert item.value in LiveView(s, q.user, pages.rows);
      assert item.value in out;
    } else {
      forall it | it in out ensures it.id != id {
        assert it in LiveView(s, q.user, pages.rows) || StandIn(s, q.conv, it);
      }
    }
  }

  lemma AliveIsNotGone(cfg: Config, s: Db, c: ConvId, id: MsgId)
    requires Reachable(cfg, s) && IsAlive(s, id)
    ensures !Gone(s.messages[id], s.now)
    ensures forall it | StandIn(s, c, it) :: it.id != id
  {
    hide Reachable, Consistent;
    ReachableIsConsistent(cfg, s);
    RowFacts(cfg, s, id);
  }

  // ----- the burned ones -----

  /** The time lies between two items of the answer; of an empty answer, anywhere the request looked. */
  ghost predicate Spans(out: seq<Item>, q: ListRequest, t: Millis) {
    if out == [] then q.before.Some? ==> t < q.before.value
    else exists a, b :: a in out && b in out && a.Created() <= t <= b.Created()
  }

  /** What is left of a message that is gone: who, where, when, and no word of it. */
  function Remains(s: Db, id: MsgId): Item
    requires id in s.messages || id in s.tombstones
  {
    if id in s.messages then
      var m := s.messages[id];
      Burned(id, m.conv, m.sender, m.kind, m.createdAt, m.destroyedAt, m.destroyReason)
    else
      var t := s.tombstones[id];
      Burned(id, t.conv, t.sender, t.kind, t.createdAt, Some(t.destroyedAt), Some(t.destroyReason))
  }

  ghost predicate HasId(items: seq<Item>, id: MsgId) {
    exists it | it in items :: it.id == id
  }

  lemma CandidatesAreIn(s: Db, pages: Pages, id: MsgId)
    requires PagesExist(s, pages)
    ensures id in pages.stones || id in pages.marked ==>
              HasId(BurnedStones(s, pages.stones) + BurnedRows(s, pages.marked), id)
  {
    var stones, marked := BurnedStones(s, pages.stones), BurnedRows(s, pages.marked);
    var all: seq<Item> := stones + marked;
    if id in pages.stones {
      var i :| 0 <= i < |pages.stones| && pages.stones[i] == id;
      assert all[i].id == id;
    } else if id in pages.marked {
      var i :| 0 <= i < |pages.marked| && pages.marked[i] == id;
      assert all[|stones| + i].id == id;
    }
  }

  lemma UnseenHolds(list: seq<Item>, candidates: seq<Item>, id: MsgId)
    requires HasId(candidates, id)
    ensures HasId(list + Unseen(ItemIds(list), candidates), id)
  {
    var extra := Unseen(ItemIds(list), candidates);
    UnseenItems(ItemIds(list), candidates);
    hide Unseen;
    var c :| c in candidates && c.id == id;
    assert c.id in ItemIds(list) + ItemIds(extra);
    var it :| (it in list || it in extra) && it.id == id;
    assert it in list + extra;
  }

  lemma SortHolds(items: seq<Item>, id: MsgId)
    ensures forall it | it in items :: it in SortByCreated(items)
    ensures HasId(items, id) ==> HasId(SortByCreated(items), id)
  {
    SortIsSort(items);
    hide SortByCreated;
  }

  /** Nothing that was fetched gets lost in the merge. */
  lemma MergeHolds(s: Db, q: ListRequest, pages: Pages, id: MsgId)
    requires PagesExist(s, pages) && s.IsMember(q.conv, q.user)
    ensures
      var out := ListMessages(s, q, pages).value;
      && (forall it | it in Merged(s, q.user, pages.rows) :: it in out)
      && (id in pages.stones || id in pages.marked ==> HasId(out, id))
  {
    var list := Merged(s, q.user, pages.rows);
    var candidates := BurnedStones(s, pages.stones) + BurnedRows(s, pages.marked);
    hide Merged, BurnedStones, BurnedRows, Unseen, SortByCreated, ItemIds, HasId;
    CandidatesAreIn(s, pages, id);
    SortHolds(list + Unseen(ItemIds(list), candidates), id);
    if HasId(candidates, id) {
      UnseenHolds(list, candidates, id);
    }
  }

  /** An item with the id of a message that is gone is what remains of it. */
  lemma ItemOfAGoneMessage(cfg: Config, s: Db, q: ListRequest, pages: Pages, id: MsgId)
    requires Reachable(cfg, s) && s.IsMember(q.conv, q.user) && PagesOf(s, q, pages)
    requires id in s.tombstones || (id in s.messages && !IsAlive(s, id))
    requires HasId(ListMessages(s, q, pages).value, id)
    ensures Remains(s, id) in ListMessages(s, q, pages).value
  {
    MergeIsCorrect(cfg, s, q, pages);
    MergedParts(s, q.user, pages.rows);
    hide PagesOf, ListMessages, Merged, LiveView, GoneView, BurnItem, Reachable, Consistent;
    ReachableIsConsistent(cfg, s);
    if id in s.messages {
      RowFacts(cfg, s, id);
    }
    var it :| it in ListMessages(s, q, pages).value && it.id == id;
    assert StandIn(s, q.conv, it);
  }

  /** The time range of the page, as the answer shows it. */
  lemma SpanIsRange(cfg: Config, s: Db, q: ListRequest, pages: Pages, t: Millis)
    requires Reachable(cfg, s) && s.IsMember(q.conv, q.user) && PagesOf(s, q, pages)
    requires Spans(ListMessages(s, q, pages).value, q, t)
    ensures RangeOf(Merged(s, q.user, pages.rows), q.before).Has(t)
  {
    MergeIsCorrect(cfg, s, q, pages);
    MergeHolds(s, q, pages, 0);
    var out, list := ListMessages(s, q, pages).value, Merged(s, q.user, pages.rows);
    hide PagesOf, ListMessages, Merged, LiveView, BurnItem, Reachable, StandIn;
    if list != [] {
      assert list[0] in out;
    }
  }

  /**
   * No burned message is passed over. A message whose row is marked or whose tombstone is left,
   * and whose time lies between two listed items, is listed by what remains of it, unless the
   * respective page is full of ones that are no older; and in answer to an empty page they all are.
   */
  lemma BurnedAreListed(cfg: Config, s: Db, q: ListRequest, pages: Pages, id: MsgId)
    requires Reachable(cfg, s) && s.IsMember(q.conv, q.user) && PagesOf(s, q, pages)
    ensures
      var out := ListMessages(s, q, pages).value;
      && (id in s.tombstones && s.tombstones[id].conv == q.conv && Spans(out, q, s.tombstones[id].createdAt) ==>
            Remains(s, id) in out
            || (|pages.stones| == PageSize(q.limit)
                && forall r | r in pages.stones :: s.tombstones[id].createdAt <= s.tombstones[r].createdAt))
      && (id in s.messages && s.messages[id].conv == q.conv && s.messages[id].isDestroyed && Spans(out, q, s.messages[id].createdAt) ==>
            Remains(s, id) in out
            || (|pages.marked| == PageSize(q.limit)
                && forall r | r in pages.marked :: s.messages[id].createdAt <= s.messages[r].createdAt))
      && (id in pages.rows && !IsAlive(s, id) ==> Remains(s, id) in out)
  {
    var out := ListMessages(s, q, pages).value;
    hide ListMessages, Reachable, StoneKey, MarkedKey, Spans, HasId, Remains, PagesOf, IsAlive;
    if id in s.tombstones && s.tombstones[id].conv == q.conv && Spans(out, q, s.tombstones[id].createdAt) {
      StonesOrFull(cfg, s, q, pages, id);
    }
    if id in s.messages && s.messages[id].conv == q.conv && s.messages[id].isDestroyed && Spans(out, q, s.messages[id].createdAt) {
      MarkedOrFull(cfg, s, q, pages, id);
    }
    if id in pages.rows && !IsAlive(s, id) {
      GoneRowsAreMerged(s, q, pages, id);
      ItemOfAGoneMessage(cfg, s, q, pages, id);
    }
    if id in s.tombstones && HasId(out, id) {
      ItemOfAGoneMessage(cfg, s, q, pages, id);
    }
    if id in s.messages && s.messages[id].isDestroyed && HasId(out, id) {
      ItemOfAGoneMessage(cfg, s, q, pages, id);
    }
  }

  lemma StonesOrFull(cfg: Config, s: Db, q: ListRequest, pages: Pages, id: MsgId)
    requires Reachable(cfg, s) && s.IsMember(q.conv, q.user) && PagesOf(s, q, pages)
    requires id in s.tombstones && s.tombstones[id].conv == q.conv
    requires Spans(ListMessages(s, q, pages).value, q, s.tombstones[id].createdAt)
    ensures HasId(ListMessages(s, q, pages).value, id)
            || (|pages.stones| == PageSize(q.limit)
                && forall r | r in pages.stones :: s.tombstones[id].createdAt <= s.tombstones[r].createdAt)
  {
    SpanIsRange(cfg, s, q, pages, s.tombstones[id].createdAt);
    MergeHolds(s, q, pages, id);
    hide ListMessages, Merged, Reachable, RangeOf, Spans, HasId;
    var key := StoneKey(s, q.conv, RangeOf(Merged(s, q.user, pages.rows), q.before));
    if id !in pages.stones {
      PageMisses(pages.stones, key, q.Size(), id);
      assert forall r | r in pages.stones :: r in key;
    }
  }

  lemma MarkedOrFull(cfg: Config, s: Db, q: ListRequest, pages: Pages, id: MsgId)
    requires Reachable(cfg, s) && s.IsMember(q.conv, q.user) && PagesOf(s, q, pages)
    requires id in s.messages && s.messages[id].conv == q.conv && s.messages[id].isDestroyed
    requires Spans(ListMessages(s, q, pages).value, q, s.messages[id].createdAt)
    ensures HasId(ListMessages(s, q, pages).value, id)
            || (|pages.marked| == PageSize(q.limit)
                && forall r | r in pages.marked :: s.messages[id].createdAt <= s.messages[r].createdAt)
  {
    SpanIsRange(cfg, s, q, pages, s.messages[id].createdAt);
    MergeHolds(s, q, pages, id);
    hide ListMessages, Merged, Reachable, RangeOf, Spans, HasId;
    var key := MarkedKey(s, q.conv, RangeOf(Merged(s, q.user, pages.rows), q.before));
    if id !in pages.marked {
      PageMisses(pages.marked, key, q.Size(), id);
      assert forall r | r in pages.marked :: r in key;
    }
  }

  lemma GoneRowsAreMerged(s: Db, q: ListRequest, pages: Pages, id: MsgId)
    requires PagesExist(s, pages) && s.IsMember(q.conv, q.user) && id in pages.rows && !IsAlive(s, id)
    ensures HasId(ListMessages(s, q, pages).value, id)
  {
    var gone := SelectRows(s, pages.rows, true);
    assert id in gone;
    var i :| 0 <= i < |gone| && gone[i] == id;
    var it := BurnedRow(id, s.messages[id]);
    assert BurnedRows(s, gone)[i] == it;
    SortIsSort(LiveView(s, q.user, pages.rows) + GoneView(s, pages.rows));
    MergeHolds(s, q, pages, id);
    hide ListMessages, LiveView;
    assert it in GoneView(s, pages.rows);
    assert it in Merged(s, q.user, pages.rows);
  }
}
