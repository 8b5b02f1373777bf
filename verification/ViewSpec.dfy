/** What `listMessages` returns: the page, the per-user burn view of it, and the tombstones merged in. */
module ViewSpec {
  import opened Prelude
  import opened Query
  import opened ChatDb
  import opened BurnSpec
  import opened ChatInvariant

  datatype Item =
    | Plain(id: MsgId, message: Message)
    | Blurred(id: MsgId, message: Message)
    | Opened(id: MsgId, message: Message, burnAt: Option<Millis>, remainSeconds: nat)
    | Burned(id: MsgId, conv: ConvId, sender: UserId, kind: MessageKind, createdAt: Millis,
             destroyedAt: Option<Millis>, destroyReason: Option<DestroyReason>)
  {
    function Created(): Millis {
      if Burned? then createdAt else message.createdAt
    }

    /** The item hands out what was said. */
    predicate Shows() {
      Plain? || Opened?
    }
  }

  // ----- applyBurnView -----

  function Mask(m: Message): Message {
    m.(content := BLANK)
  }

  function BurnItem(s: Db, u: UserId, id: MsgId): Option<Item>
    requires id in s.messages
  {
    var m, k := s.messages[id], CopyKey(id, u);
    if !m.IsBurn() then
      Some(Plain(id, m))
    else if k in s.receipts && s.receipts[k].RunOut(s.now) then
      None
    else if k !in s.receipts || s.receipts[k].revealedAt.None? then
      Some(Blurred(id, Mask(m)))
    else
      Some(Opened(id, m, s.receipts[k].burnAt, RemainSeconds(s.receipts[k].burnAt, m.destroyAt, s.now)))
  }

  function BurnView(s: Db, u: UserId, ids: seq<MsgId>): seq<Item>
    requires forall id | id in ids :: id in s.messages
  {
    if ids == [] then
      []
    else
      var n := |ids| - 1;
      var item := BurnItem(s, u, ids[n]);
      BurnView(s, u, ids[..n]) + (if item.Some? then [item.value] else [])
  }

  // ----- tombstones -----

  function BurnedRow(id: MsgId, m: Message): Item {
    Burned(id, m.conv, m.sender, m.kind, m.createdAt, m.destroyedAt, m.destroyReason)
  }

  function BurnedStone(id: MsgId, t: Tombstone): Item {
    Burned(id, t.conv, t.sender, t.kind, t.createdAt, Some(t.destroyedAt), Some(t.destroyReason))
  }

  function BurnedRows(s: Db, ids: seq<MsgId>): seq<Item>
    requires forall id | id in ids :: id in s.messages
  {
    seq(|ids|, i requires 0 <= i < |ids| => BurnedRow(ids[i], s.messages[ids[i]]))
  }

  function BurnedStones(s: Db, ids: seq<MsgId>): seq<Item>
    requires forall id | id in ids :: id in s.tombstones
  {
    seq(|ids|, i requires 0 <= i < |ids| => BurnedStone(ids[i], s.tombstones[ids[i]]))
  }

  function ItemIds(items: seq<Item>): set<MsgId> {
    set it | it in items :: it.id
  }

  /** The `seen` filter: candidates whose id has not come up yet, in order. */
  function Unseen(seen: set<MsgId>, candidates: seq<Item>): seq<Item> {
    if candidates == [] then
      []
    else
      var n := |candidates| - 1;
      var rest := Unseen(seen, candidates[..n]);
      if candidates[n].id in seen + ItemIds(rest) then rest else rest + [candidates[n]]
  }

  // ----- the stable sort by created_at -----

  function InsertItem(sorted: seq<Item>, it: Item): seq<Item> {
    if sorted == [] || sorted[|sorted| - 1].Created() <= it.Created() then
      sorted + [it]
    else
      InsertItem(sorted[..|sorted| - 1], it) + [sorted[|sorted| - 1]]
  }

  function SortByCreated(items: seq<Item>): seq<Item> {
    if items == [] then [] else InsertItem(SortByCreated(items[..|items| - 1]), items[|items| - 1])
  }

  predicate Sorted(items: seq<Item>) {
    forall i, j | 0 <= i < j < |items| :: items[i].Created() <= items[j].Created()
  }

  // ----- listMessages -----

  datatype ListRequest = ListRequest(conv: ConvId, user: UserId, before: Option<Millis>, limit: nat, includeDestroyed: bool)
  {
    function Size(): nat {
      if limit == 0 then 50 else limit
    }
  }

  function RowKey(s: Db, q: ListRequest): map<MsgId, int> {
    map id | id in s.messages && s.messages[id].conv == q.conv
             && (q.includeDestroyed || !Gone(s.messages[id], s.now))
             && (q.before.Some? ==> s.messages[id].createdAt < q.before.value) ::
      -(s.messages[id].createdAt as int)
  }

  function SelectRows(s: Db, ids: seq<MsgId>, gone: bool): (kept: seq<MsgId>)
    requires forall id | id in ids :: id in s.messages
    ensures forall id | id in kept :: id in ids && Gone(s.messages[id], s.now) == gone
    ensures forall id | id in ids && Gone(s.messages[id], s.now) == gone :: id in kept
  {
    if ids == [] then
      []
    else
      var n := |ids| - 1;
      assert ids == ids[..n] + [ids[n]];
      SelectRows(s, ids[..n], gone) + (if Gone(s.messages[ids[n]], s.now) == gone then [ids[n]] else [])
  }

  function Reverse<T>(xs: seq<T>): (r: seq<T>)
    ensures |r| == |xs| && forall i | 0 <= i < |xs| :: r[i] == xs[|xs| - 1 - i]
  {
    seq(|xs|, i requires 0 <= i < |xs| => xs[|xs| - 1 - i])
  }

  /** The user's own view of the rows that are not gone, oldest first. */
  function LiveView(s: Db, u: UserId, rows: seq<MsgId>): seq<Item>
    requires forall id | id in rows :: id in s.messages
  {
    BurnView(s, u, Reverse(SelectRows(s, rows, false)))
  }

  function GoneView(s: Db, rows: seq<MsgId>): seq<Item>
    requires forall id | id in rows :: id in s.messages
  {
    BurnedRows(s, SelectRows(s, rows, true))
  }

  function Merged(s: Db, u: UserId, rows: seq<MsgId>): seq<Item>
    requires forall id | id in rows :: id in s.messages
  {
    SortByCreated(LiveView(s, u, rows) + GoneView(s, rows))
  }

  datatype Range = Between(from: Millis, to: Millis) | Until(to: Millis) | Anytime
  {
    predicate Has(t: Millis) {
      match this
      case Between(a, b) => a <= t <= b
      case Until(b) => t < b
      case Anytime => true
    }
  }

  function RangeOf(list: seq<Item>, before: Option<Millis>): Range {
    if list != [] then Between(list[0].Created(), list[|list| - 1].Created())
    else if before.Some? then Until(before.value)
    else Anytime
  }

  function StoneKey(s: Db, c: ConvId, range: Range): map<MsgId, int> {
    map id | id in s.tombstones && s.tombstones[id].conv == c && range.Has(s.tombstones[id].createdAt) ::
      -(s.tombstones[id].createdAt as int)
  }

  function MarkedKey(s: Db, c: ConvId, range: Range): map<MsgId, int> {
    map id | id in s.messages && s.messages[id].conv == c && s.messages[id].isDestroyed
             && range.Has(s.messages[id].createdAt) ::
      -(s.messages[id].createdAt as int)
  }

  function Attach(s: Db, list: seq<Item>, stones: seq<MsgId>, marked: seq<MsgId>): seq<Item>
    requires forall id | id in stones :: id in s.tombstones
    requires forall id | id in marked :: id in s.messages
  {
    if stones == [] && marked == [] then
      list
    else
      SortByCreated(list + Unseen(ItemIds(list), BurnedStones(s, stones) + BurnedRows(s, marked)))
  }

  /** The three pages one request reads. */
  datatype Pages = Pages(rows: seq<MsgId>, stones: seq<MsgId>, marked: seq<MsgId>)

  predicate PagesExist(s: Db, pages: Pages) {
    && (forall id | id in pages.rows :: id in s.messages)
    && (forall id | id in pages.stones :: id in s.tombstones)
    && (forall id | id in pages.marked :: id in s.messages)
  }

  ghost predicate PagesOf(s: Db, q: ListRequest, pages: Pages) {
    && PagesExist(s, pages)
    && Page(pages.rows, RowKey(s, q), q.Size())
    && var range := RangeOf(Merged(s, q.user, pages.rows), q.before);
       && Page(pages.stones, StoneKey(s, q.conv, range), q.Size())
       && Page(pages.marked, MarkedKey(s, q.conv, range), q.Size())
  }

  function ListMessages(s: Db, q: ListRequest, pages: Pages): Result<seq<Item>>
    requires PagesExist(s, pages)
  {
    if !s.IsMember(q.conv, q.user) then
      Err(Forbidden)
    else
      Ok(Attach(s, Merged(s, q.user, pages.rows), pages.stones, pages.marked))
  }
}
