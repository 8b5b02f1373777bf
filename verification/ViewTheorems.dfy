/** What a reader can and cannot learn from the message list. */
module ViewTheorems {
  import opened Prelude
  import opened Query
  import opened ChatDb
  import opened BurnSpec
  import opened Runs
  import opened ChatInvariant
  import opened BurnTheorems
  import opened ViewSpec

  // ----- sorting -----

  lemma {:induction false} InsertItems(sorted: seq<Item>, it: Item)
    ensures multiset(InsertItem(sorted, it)) == multiset(sorted) + multiset{it}
    ensures forall x :: x in InsertItem(sorted, it) <==> x in sorted || x == it
  {
    if sorted == [] || sorted[|sorted| - 1].Created() <= it.Created() {
    } else {
      var init, last := sorted[..|sorted| - 1], sorted[|sorted| - 1];
      assert sorted == init + [last];
      InsertItems(init, it);
    }
  }

  lemma {:induction false} InsertKeepsSorted(sorted: seq<Item>, it: Item)
    requires Sorted(sorted)
    ensures Sorted(InsertItem(sorted, it))
  {
    if sorted == [] || sorted[|sorted| - 1].Created() <= it.Created() {
    } else {
      var init, last := sorted[..|sorted| - 1], sorted[|sorted| - 1];
      assert sorted == init + [last];
      InsertKeepsSorted(init, it);
      InsertItems(init, it);
      assert forall x | x in init :: x.Created() <= last.Created();
      assert forall x | x in InsertItem(init, it) :: x.Created() <= last.Created();
    }
  }

  lemma {:induction false} SortIsSort(items: seq<Item>)
    ensures Sorted(SortByCreated(items)) && multiset(SortByCreated(items)) == multiset(items)
    ensures |SortByCreated(items)| == |items|
    ensures forall it :: it in SortByCreated(items) <==> it in items
  {
    if items != [] {
      var init, last := items[..|items| - 1], items[|items| - 1];
      assert items == init + [last];
      SortIsSort(init);
      InsertKeepsSorted(SortByCreated(init), last);
      InsertItems(SortByCreated(init), last);
    }
    var out := SortByCreated(items);
    assert |out| == |multiset(out)| == |multiset(items)| == |items|;
    forall it ensures it in out <==> it in items {
      assert it in multiset(out) <==> it in multiset(items);
    }
  }

  predicate DistinctIds(items: seq<Item>) {
    forall i, j | 0 <= i < j < |items| :: items[i].id != items[j].id
  }

  lemma {:induction false} InsertKeepsDistinct(sorted: seq<Item>, it: Item)
    requires DistinctIds(sorted) && forall x | x in sorted :: x.id != it.id
    ensures DistinctIds(InsertItem(sorted, it))
  {
    if sorted == [] || sorted[|sorted| - 1].Created() <= it.Created() {
    } else {
      var init, last := sorted[..|sorted| - 1], sorted[|sorted| - 1];
      assert sorted == init + [last];
      InsertKeepsDistinct(init, it);
      InsertItems(init, it);
      assert forall x | x in init :: x.id != last.id;
      assert forall x | x in InsertItem(init, it) :: x.id != last.id;
    }
  }

  lemma {:induction false} SortKeepsDistinct(items: seq<Item>)
    requires DistinctIds(items)
    ensures DistinctIds(SortByCreated(items))
  {
    if items != [] {
      var init, last := items[..|items| - 1], items[|items| - 1];
      assert items == init + [last];
      SortKeepsDistinct(init);
      SortIsSort(init);
      InsertKeepsDistinct(SortByCreated(init), last);
    }
  }

  // ----- the parts of the list -----

  lemma {:induction false} BurnViewItems(s: Db, u: UserId, ids: seq<MsgId>)
    requires forall id | id in ids :: id in s.messages
    ensures forall it | it in BurnView(s, u, ids) :: it.id in ids && BurnItem(s, u, it.id) == Some(it)
    ensures forall id | id in ids && BurnItem(s, u, id).Some? :: BurnItem(s, u, id).value in BurnView(s, u, ids)
    ensures Distinct(ids) ==> DistinctIds(BurnView(s, u, ids))
  {
    if ids != [] {
      var n := |ids| - 1;
      assert ids == ids[..n] + [ids[n]];
      BurnViewItems(s, u, ids[..n]);
    }
  }

  lemma {:induction false} SelectKeepsDistinct(s: Db, ids: seq<MsgId>, gone: bool)
    requires (forall id | id in ids :: id in s.messages) && Distinct(ids)
    ensures Distinct(SelectRows(s, ids, gone))
  {
    if ids != [] {
      var n := |ids| - 1;
      assert ids == ids[..n] + [ids[n]];
      SelectKeepsDistinct(s, ids[..n], gone);
      assert ids[n] !in ids[..n];
    }
  }

  lemma {:induction false} UnseenItems(seen: set<MsgId>, candidates: seq<Item>)
    ensures forall it | it in Unseen(seen, candidates) :: it in candidates && it.id !in seen
    ensures DistinctIds(Unseen(seen, candidates))
    ensures forall it | it in candidates :: it.id in seen + ItemIds(Unseen(seen, candidates))
  {
    if candidates != [] {
      var n := |candidates| - 1;
      assert candidates == candidates[..n] + [candidates[n]];
      UnseenItems(seen, candidates[..n]);
    }
  }

  lemma ReverseMembers<T>(xs: seq<T>)
    ensures forall x :: x in Reverse(xs) <==> x in xs
    ensures Distinct(xs) ==> Distinct(Reverse(xs))
  {
    forall x | x in xs ensures x in Reverse(xs) {
      var i :| 0 <= i < |xs| && xs[i] == x;
      assert Reverse(xs)[|xs| - 1 - i] == x;
    }
  }

  /** The page before tombstones: the user's view and the gone rows of the page, no id twice. */
  lemma MergedParts(s: Db, u: UserId, rows: seq<MsgId>)
    requires (forall id | id in rows :: id in s.messages) && Distinct(rows)
    ensures Sorted(Merged(s, u, rows)) && DistinctIds(Merged(s, u, rows))
    ensures forall it :: it in Merged(s, u, rows) <==> it in LiveView(s, u, rows) || it in GoneView(s, rows)
    ensures forall it | it in LiveView(s, u, rows) ::
              it.id in rows && !Gone(s.messages[it.id], s.now) && BurnItem(s, u, it.id) == Some(it)
    ensures forall id | id in rows && !Gone(s.messages[id], s.now) && BurnItem(s, u, id).Some? ::
              BurnItem(s, u, id).value in LiveView(s, u, rows)
    ensures forall it | it in GoneView(s, rows) ::
              it.id in rows && Gone(s.messages[it.id], s.now) && it == BurnedRow(it.id, s.messages[it.id])
  {
    var live, gone := SelectRows(s, rows, false), SelectRows(s, rows, true);
    SelectKeepsDistinct(s, rows, false);
    SelectKeepsDistinct(s, rows, true);
    ReverseMembers(live);
    BurnViewItems(s, u, Reverse(live));
    var both := LiveView(s, u, rows) + GoneView(s, rows);
    assert DistinctIds(both);
    SortIsSort(both);
    SortKeepsDistinct(both);
  }

  // ----- merge correctness -----

  /** A contentless stand-in, made from a row that is gone or from the tombstone table. */
  predicate StandIn(s: Db, c: ConvId, it: Item) {
    && it.Burned? && it.conv == c
    && ((it.id in s.messages && Gone(s.messages[it.id], s.now) && it == BurnedRow(it.id, s.messages[it.id]))
        || (it.id in s.tombstones && it == BurnedStone(it.id, s.tombstones[it.id])))
  }

  lemma StoneStandsIn(s: Db, c: ConvId, range: Range, stones: seq<MsgId>, limit: nat, it: Item)
    requires (forall id | id in stones :: id in s.tombstones) && Page(stones, StoneKey(s, c, range), limit)
    ensures it in BurnedStones(s, stones) ==> StandIn(s, c, it) && range.Has(it.Created())
  {
    if it in BurnedStones(s, stones) {
      assert it.id in stones;
      assert it.id in StoneKey(s, c, range);
    }
  }

  lemma MarkedRowStandsIn(s: Db, c: ConvId, range: Range, marked: seq<MsgId>, limit: nat, it: Item)
    requires (forall id | id in marked :: id in s.messages) && Page(marked, MarkedKey(s, c, range), limit)
    ensures it in BurnedRows(s, marked) ==> StandIn(s, c, it) && range.Has(it.Created())
  {
    if it in BurnedRows(s, marked) {
      assert it.id in marked;
      assert it.id in MarkedKey(s, c, range);
    }
  }

  lemma AttachParts(s: Db, q: ListRequest, pages: Pages, it: Item)
    requires PagesOf(s, q, pages)
    ensures
      var list := Merged(s, q.user, pages.rows);
      var extra := Unseen(ItemIds(list), BurnedStones(s, pages.stones) + BurnedRows(s, pages.marked));
      it in extra ==> it.id !in ItemIds(list) && StandIn(s, q.conv, it) && RangeOf(list, q.before).Has(it.Created())
  {
    hide Merged, Unseen, RangeOf, Page, StandIn, StoneKey, MarkedKey, BurnedStones, BurnedRows, ItemIds, RowKey;
    var list := Merged(s, q.user, pages.rows);
    var range := RangeOf(list, q.before);
    UnseenItems(ItemIds(list), BurnedStones(s, pages.stones) + BurnedRows(s, pages.marked));
    StoneStandsIn(s, q.conv, range, pages.stones, q.Size(), it);
    MarkedRowStandsIn(s, q.conv, range, pages.marked, q.Size(), it);
  }

  /**
   * The merged list: in time order, no id twice, every item of the user's own view unchanged,
   * and besides those only contentless stand-ins, which lie within the page's time range.
   */
  lemma MergeIsCorrect(cfg: Config, s: Db, q: ListRequest, pages: Pages)
    requires Reachable(cfg, s) && s.IsMember(q.conv, q.user) && PagesOf(s, q, pages)
    ensures
      var out := ListMessages(s, q, pages).value;
      var view := LiveView(s, q.user, pages.rows);
      var range := RangeOf(Merged(s, q.user, pages.rows), q.before);
      && Sorted(out) && DistinctIds(out)
      && (forall it | it in view :: it in out)
      && (forall it | it in out && it !in view :: StandIn(s, q.conv, it))
      && (forall it | it in out :: range.Has(it.Created()))
      && (!q.includeDestroyed ==> forall id | id in pages.rows && BurnItem(s, q.user, id).Some? ::
                                    BurnItem(s, q.user, id).value in out)
  {
    var list := Merged(s, q.user, pages.rows);
    var extra := Unseen(ItemIds(list), BurnedStones(s, pages.stones) + BurnedRows(s, pages.marked));
    forall id | id in pages.rows ensures id in RowKey(s, q) {}
    MergedParts(s, q.user, pages.rows);
    forall it ensures it in extra ==> it.id !in ItemIds(list) && StandIn(s, q.conv, it)
                                      && RangeOf(list, q.before).Has(it.Created())
    {
      AttachParts(s, q, pages, it);
    }
    UnseenItems(ItemIds(list), BurnedStones(s, pages.stones) + BurnedRows(s, pages.marked));
    AttachKeepsOrder(list, extra, q.before);
    hide Merged, LiveView, GoneView, BurnItem, Unseen, Reachable, PagesOf, ItemIds, SortByCreated, DistinctIds, Sorted, RangeOf;
  }

  lemma AttachKeepsOrder(list: seq<Item>, extra: seq<Item>, before: Option<Millis>)
    requires Sorted(list) && DistinctIds(list) && DistinctIds(extra)
    requires forall it | it in extra :: it.id !in ItemIds(list)
    requires forall it | it in extra :: RangeOf(list, before).Has(it.Created())
    ensures Sorted(SortByCreated(list + extra)) && DistinctIds(SortByCreated(list + extra))
    ensures forall it :: it in SortByCreated(list + extra) <==> it in list || it in extra
    ensures forall it | it in list :: RangeOf(list, before).Has(it.Created())
  {
    ListIdsAreMembers(list);
    assert DistinctIds(list + extra);
    SortIsSort(list + extra);
    SortKeepsDistinct(list + extra);
  }

  lemma ListIdsAreMembers(list: seq<Item>)
    ensures forall it | it in list :: it.id in ItemIds(list)
  {
  }

  // ----- confidentiality -----

  /** What user `u` must not learn the content of, now. */
  predicate Secret(s: Db, u: UserId, id: MsgId)
    requires id in s.messages
  {
    var m, r := s.messages[id], CopyOf(s, id, u);
    Gone(m, s.now) || (m.IsBurn() && (r.revealedAt.None? || r.RunOut(s.now)))
  }

  /** The same database, except for what was said in messages secret to `u`. */
  ghost predicate SameButSecrets(s: Db, s': Db, u: UserId) {
    && s' == s.(messages := s'.messages)
    && s'.messages.Keys == s.messages.Keys
    && (forall id | id in s.messages :: SameButSecret(s, s', u, id))
  }

  ghost predicate SameButSecret(s: Db, s': Db, u: UserId, id: MsgId)
    requires id in s.messages && id in s'.messages
  {
    var m, m' := s.messages[id], s'.messages[id];
    m' == m.(content := m'.content) && (Secret(s, u, id) || m' == m)
  }

  lemma {:induction false} SelectIgnoresContent(s: Db, s': Db, u: UserId, ids: seq<MsgId>, gone: bool)
    requires SameButSecrets(s, s', u) && forall id | id in ids :: id in s.messages
    ensures SelectRows(s', ids, gone) == SelectRows(s, ids, gone)
  {
    if ids != [] {
      var n := |ids| - 1;
      assert SameButSecret(s, s', u, ids[n]);
      SelectIgnoresContent(s, s', u, ids[..n], gone);
    }
  }

  lemma {:induction false} ViewIgnoresSecrets(s: Db, s': Db, u: UserId, ids: seq<MsgId>)
    requires SameButSecrets(s, s', u)
    requires forall id | id in ids :: id in s.messages && !Gone(s.messages[id], s.now)
    ensures BurnView(s', u, ids) == BurnView(s, u, ids)
  {
    if ids != [] {
      var n := |ids| - 1;
      assert SameButSecret(s, s', u, ids[n]);
      ViewIgnoresSecrets(s, s', u, ids[..n]);
    }
  }

  lemma StandInsHaveNoContent(s: Db, s': Db, u: UserId, ids: seq<MsgId>)
    requires SameButSecrets(s, s', u) && forall id | id in ids :: id in s.messages
    ensures BurnedRows(s', ids) == BurnedRows(s, ids)
  {
    assert forall i | 0 <= i < |ids| :: SameButSecret(s, s', u, ids[i]);
  }

  lemma MergedIgnoresSecrets(s: Db, s': Db, u: UserId, rows: seq<MsgId>)
    requires SameButSecrets(s, s', u) && forall id | id in rows :: id in s.messages
    ensures Merged(s', u, rows) == Merged(s, u, rows)
  {
    SelectIgnoresContent(s, s', u, rows, false);
    SelectIgnoresContent(s, s', u, rows, true);
    ReverseMembers(SelectRows(s, rows, false));
    ViewIgnoresSecrets(s, s', u, Reverse(SelectRows(s, rows, false)));
    StandInsHaveNoContent(s, s', u, SelectRows(s, rows, true));
  }

  /**
   * Non-interference: two databases that differ only in the content of destroyed, expired,
   * unopened or run-out messages answer every list request of `u` alike, with and without
   * the destroyed ones; the pages the database may choose are the same too.
   */
  lemma NonInterference(s: Db, s': Db, q: ListRequest, pages: Pages)
    requires SameButSecrets(s, s', q.user) && PagesOf(s, q, pages)
    ensures PagesOf(s', q, pages)
    ensures ListMessages(s', q, pages) == ListMessages(s, q, pages)
  {
    hide SameButSecrets, Merged, Page, RowKey, MarkedKey, StoneKey, Unseen, RangeOf, BurnedRows, SortByCreated;
    SameTables(s, s', q.user, pages.stones);
    MergedIgnoresSecrets(s, s', q.user, pages.rows);
    StandInsHaveNoContent(s, s', q.user, pages.marked);
    QueriesIgnoreSecrets(s, s', q, RangeOf(Merged(s, q.user, pages.rows), q.before));
  }

  lemma SameTables(s: Db, s': Db, u: UserId, stones: seq<MsgId>)
    requires SameButSecrets(s, s', u) && forall id | id in stones :: id in s.tombstones
    ensures s'.tombstones == s.tombstones && s'.members == s.members && s'.messages.Keys == s.messages.Keys
    ensures BurnedStones(s', stones) == BurnedStones(s, stones)
  {
  }

  /** The columns the queries read. */
  predicate SameColumns(m: Message, m': Message) {
    m'.conv == m.conv && m'.createdAt == m.createdAt && m'.isDestroyed == m.isDestroyed && m'.destroyAt == m.destroyAt
  }

  lemma ColumnsIgnoreSecrets(s: Db, s': Db, u: UserId)
    requires SameButSecrets(s, s', u)
    ensures s'.now == s.now && s'.messages.Keys == s.messages.Keys && s'.tombstones == s.tombstones
    ensures forall id | id in s.messages :: SameColumns(s.messages[id], s'.messages[id])
  {
    hide Secret;
    forall id | id in s.messages ensures SameColumns(s.messages[id], s'.messages[id]) {
      assert SameButSecret(s, s', u, id);
    }
  }

  lemma QueriesIgnoreSecrets(s: Db, s': Db, q: ListRequest, range: Range)
    requires SameButSecrets(s, s', q.user)
    ensures RowKey(s', q) == RowKey(s, q)
    ensures MarkedKey(s', q.conv, range) == MarkedKey(s, q.conv, range)
    ensures StoneKey(s', q.conv, range) == StoneKey(s, q.conv, range)
  {
    hide SameButSecrets;
    ColumnsIgnoreSecrets(s, s', q.user);
  }

  /** A listed item that shows content is of a message open to the reader at this moment. */
  lemma ShownItemsAreOpen(cfg: Config, s: Db, q: ListRequest, pages: Pages, it: Item)
    requires Reachable(cfg, s) && s.IsMember(q.conv, q.user) && PagesOf(s, q, pages)
    requires it in ListMessages(s, q, pages).value
    ensures it.Shows() ==> it.id in s.messages && !Secret(s, q.user, it.id)
    ensures it.Blurred? ==> it.message.content == BLANK
  {
    MergeIsCorrect(cfg, s, q, pages);
    forall id | id in pages.rows ensures id in RowKey(s, q) {}
    MergedParts(s, q.user, pages.rows);
    hide Merged, LiveView, GoneView, ListMessages, Reachable, PagesOf, Page;
  }

  /**
   * Expiry is absorbing for readers: once a message is gone, or the reader's own copy has run
   * out, no continuation of the run lists its content or reveals it to that reader again.
   */
  lemma NeverShownAgain(cfg: Config, s: Db, ops: seq<Op>, id: MsgId, q: ListRequest, pages: Pages, it: Item)
    requires Reachable(cfg, s) && Run(cfg, s, ops)
    requires
      || id in s.tombstones
      || (id in s.messages && Gone(s.messages[id], s.now))
      || (CopyKey(id, q.user) in s.receipts && s.receipts[CopyKey(id, q.user)].RunOut(s.now))
    requires
      var s' := Exec(cfg, s, ops);
      s'.IsMember(q.conv, q.user) && PagesOf(s', q, pages) && it in ListMessages(s', q, pages).value
    ensures it.id == id ==> !it.Shows()
    ensures RevealError(Exec(cfg, s, ops), id, q.user).Some?
  {
    var s' := Exec(cfg, s, ops);
    ReachableExtends(cfg, s, ops);
    ShownItemsAreOpen(cfg, s', q, pages, it);
    hide Reachable, Run, Exec, PagesOf, ListMessages, RevealError;
    if id in s.tombstones || (id in s.messages && Gone(s.messages[id], s.now)) {
      GoneForGood(cfg, s, ops, id, q.user);
    } else {
      RunOutForGood(cfg, s, ops, id, q.user);
      RunOutCopyIsOfABurnMessage(cfg, s', id, q.user);
    }
  }

  lemma RunOutCopyIsOfABurnMessage(cfg: Config, s: Db, id: MsgId, u: UserId)
    requires Reachable(cfg, s)
    ensures id in s.messages && CopyOf(s, id, u).RunOut(s.now) ==> s.messages[id].IsBurn()
  {
    hide Reachable, Consistent;
    ReachableIsConsistent(cfg, s);
    if CopyKey(id, u) in s.receipts {
      CopyFacts(cfg, s, CopyKey(id, u));
    }
  }
}
