/** message.service.ts: sending, opening, consuming, listing and reading messages. */
module MessageServices {
  import opened Prelude
  import opened Query
  import opened ChatDb
  import opened BurnSpec
  import opened ViewSpec
  import opened ViewTheorems
  import opened Runs
  import opened Tables

  class MessageService {
    const db: Database
    const cfg: Config

    constructor (db: Database, cfg: Config)
      ensures this.db == db && this.cfg == cfg
    {
      this.db, this.cfg := db, cfg;
    }

    /** `id` is the UUID the insert draws. */
    method SendMessage(id: MsgId, d: Draft) returns (r: Result<Message>)
      requires id !in db.messages && id !in db.tombstones
      modifies db
      ensures (db.Snapshot(), r) == Send(cfg, old(db.Snapshot()), id, d)
      ensures Performs(cfg, old(db.Snapshot()), OpSend(id, d), db.Snapshot())
    {
      if !db.HasMember(d.conv, d.sender) {
        return Err(Forbidden);
      }
      if d.conv !in db.convs {
        return Err(NotFound);
      }
      var conv := db.convs[d.conv];
      if conv.dissolvedAt.Some? {
        return Err(Forbidden);
      }
      if conv.kind == Channel && db.members[MemberKey(d.conv, d.sender)].role != Owner {
        return Err(Forbidden);
      }
      var members := db.Snapshot().Roster(d.conv);
      var mentions := MembersOnly(db.Snapshot(), d.conv, Dedup(d.mentions));
      var isEncrypted := Encrypted(d.content);
      if !isEncrypted && (Filled(d.content.cipherNonce) || Filled(d.content.cipherText) || Filled(d.content.ephemeralKey)) {
        return Err(BadRequest);
      }
      if d.kind == Text && !Filled(d.content.text) && !isEncrypted {
        return Err(BadRequest);
      }
      if d.kind != Text && !Filled(d.content.fileUrl) {
        return Err(BadRequest);
      }
      var burnTtl := NormalizeBurnTtl(d.burnTtl, d.destroyAt, db.now);
      var destroyAt: Option<Millis> := None;
      if burnTtl.Some? {
        destroyAt := Some(db.now + Max(cfg.fallbackMs, burnTtl.value * 1000));
      }
      var saved := Message(d.conv, d.sender, d.kind, StoredContent(d.content), d.mediaDuration, d.replyTo, mentions,
                           isEncrypted, false, false, db.now, burnTtl, destroyAt, false, None, None);
      db.messages := db.messages[id := saved];
      var rows := map m | m in members :: CopyKey(id, m.user) :=
        Receipt(m.user == d.sender, if m.user == d.sender then Some(db.now) else None, None, None);
      db.receipts := db.receipts + rows;
      assert rows == NewCopies(old(db.Snapshot()), id, d);
      return Ok(saved);
    }

    /** The first reveal: starts the caller's own countdown and pushes the message's deadline back. */
    method StartCountdown(id: MsgId, u: UserId, duration: Option<int>)
      requires FirstReveal(db.Snapshot(), id, u)
      modifies db
      ensures db.Snapshot() == OpenCopy(old(db.Snapshot()), id, u,
                old(db.now) + RevealWindow(cfg, old(db.messages[id]), duration) * 1000)
      ensures id in db.messages && CopyKey(id, u) in db.receipts
    {
      var msg, k := db.messages[id], CopyKey(id, u);
      var burnSeconds := RevealWindow(cfg, msg, duration);
      var burnAt := db.now + burnSeconds * 1000;
      hide RevealWindow, FirstReveal;
      var receipt := if k in db.receipts then db.receipts[k] else UNREAD_COPY;
      db.receipts := db.receipts[k :=
        receipt.(revealedAt := Some(db.now), burnAt := Some(burnAt), isRead := true, readAt := Some(db.now))];
      var curDestroy := if msg.destroyAt.Some? then msg.destroyAt.value else 0;
      if burnAt > curDestroy {
        db.messages := db.messages[id := msg.(destroyAt := Some(burnAt))];
      }
      assert db.messages == OpenCopy(old(db.Snapshot()), id, u, burnAt).messages;
    }

    method RevealMessage(id: MsgId, u: UserId, duration: Option<int>) returns (r: Result<Revealed>)
      modifies db
      ensures (db.Snapshot(), r) == Reveal(cfg, old(db.Snapshot()), id, u, duration)
      ensures Performs(cfg, old(db.Snapshot()), OpReveal(id, u, duration), db.Snapshot())
    {
      hide RevealWindow, IsMediaBurn, RemainSeconds, OpenCopy;
      if id !in db.messages || db.messages[id].isDestroyed {
        return Err(NotFound);
      }
      var msg, k := db.messages[id], CopyKey(id, u);
      if !db.HasMember(msg.conv, u) {
        return Err(Forbidden);
      }
      if msg.burnTtl.None? || msg.isRecalled {
        return Err(BadRequest);
      }
      if msg.destroyAt.Some? && msg.destroyAt.value <= db.now {
        return Err(NotFound);
      }
      var receipt := if k in db.receipts then db.receipts[k] else UNREAD_COPY;
      if receipt.burnAt.Some? && receipt.burnAt.value <= db.now {
        return Err(NotFound);
      }
      if receipt.revealedAt.None? {
        StartCountdown(id, u, duration);
        msg, receipt := db.messages[id], db.receipts[k];
      }
      r := Ok(Revealed(msg, receipt.burnAt, RemainSeconds(receipt.burnAt, msg.destroyAt, db.now), IsMediaBurn(msg)));
    }

    method ConsumeMessage(id: MsgId, u: UserId) returns (r: Result<Consumed>)
      modifies db
      ensures (db.Snapshot(), r) == Consume(old(db.Snapshot()), id, u)
      ensures Performs(cfg, old(db.Snapshot()), OpConsume(id, u), db.Snapshot())
    {
      if id !in db.messages {
        return Ok(Consumed(true));
      }
      var msg, k := db.messages[id], CopyKey(id, u);
      if !db.HasMember(msg.conv, u) {
        return Err(Forbidden);
      }
      if msg.burnTtl.None? || !IsMediaBurn(msg) || msg.isRecalled {
        return Err(BadRequest);
      }
      if k !in db.receipts || db.receipts[k].revealedAt.None? {
        return Err(BadRequest);
      }
      var receipt := db.receipts[k];
      if receipt.burnAt.Some? && receipt.burnAt.value <= db.now {
        return Ok(Consumed(true));
      }
      db.receipts := db.receipts[k := receipt.(burnAt := Some(db.now))];
      return Ok(Consumed(false));
    }

    // ----- editing, recalling, the original file -----

    method EditMessage(id: MsgId, u: UserId, text: string) returns (r: Result<Message>)
      modifies db
      ensures Performs(cfg, old(db.Snapshot()), OpEdit(id, u, text), db.Snapshot())
      ensures r.Err? ==> db.Snapshot() == old(db.Snapshot())
      ensures r.Ok? ==> id in db.messages && r.value == db.messages[id] && r.value.content.text == Some(text) && r.value.isEdited
      ensures r == Err(NotFound) <==> id !in old(db.messages) || old(db.messages)[id].isDestroyed
      ensures r == Err(Forbidden) <==> id in old(db.messages) && !old(db.messages)[id].isDestroyed && old(db.messages)[id].sender != u
      ensures r == Err(BadRequest) <==>
                id in old(db.messages) && !old(db.messages)[id].isDestroyed && old(db.messages)[id].sender == u
                && (old(db.messages)[id].isRecalled || old(db.messages)[id].burnTtl.Some? || db.now > old(db.messages)[id].createdAt + EDIT_WINDOW)
      ensures r.Err? ==> r.error in {NotFound, Forbidden, BadRequest}
    {
      if id !in db.messages || db.messages[id].isDestroyed {
        return Err(NotFound);
      }
      var message := db.messages[id];
      if message.sender != u {
        return Err(Forbidden);
      }
      if message.isRecalled || message.burnTtl.Some? {
        return Err(BadRequest);
      }
      if db.now - message.createdAt > EDIT_WINDOW {
        return Err(BadRequest);
      }
      message := message.(content := message.content.(text := Some(text)), isEdited := true);
      db.messages := db.messages[id := message];
      return Ok(message);
    }

    method RecallMessage(id: MsgId, u: UserId) returns (r: Result<MsgId>)
      modifies db
      ensures Performs(cfg, old(db.Snapshot()), OpRecall(id, u), db.Snapshot())
      ensures r.Err? ==> db.Snapshot() == old(db.Snapshot())
      ensures r.Ok? ==> r.value == id && id in db.messages && db.messages[id].isRecalled
      ensures r == Err(NotFound) <==> id !in old(db.messages) || old(db.messages)[id].isDestroyed
      ensures r == Err(Forbidden) <==> id in old(db.messages) && !old(db.messages)[id].isDestroyed && old(db.messages)[id].sender != u
      ensures r == Err(BadRequest) <==>
                id in old(db.messages) && !old(db.messages)[id].isDestroyed && old(db.messages)[id].sender == u
                && db.now > old(db.messages)[id].createdAt + EDIT_WINDOW
      ensures r.Err? ==> r.error in {NotFound, Forbidden, BadRequest}
    {
      if id !in db.messages || db.messages[id].isDestroyed {
        return Err(NotFound);
      }
      var message := db.messages[id];
      if message.sender != u {
        return Err(Forbidden);
      }
      if db.now - message.createdAt > EDIT_WINDOW {
        return Err(BadRequest);
      }
      db.messages := db.messages[id := message.(isRecalled := true)];
      return Ok(id);
    }

    method UpdateOriginalFile(id: MsgId, u: UserId, url: string) returns (r: Result<Message>)
      modifies db
      ensures Performs(cfg, old(db.Snapshot()), OpPatchOriginal(id, u, url), db.Snapshot())
      ensures r.Err? ==> db.Snapshot() == old(db.Snapshot())
      ensures r.Ok? ==> id in db.messages && r.value == db.messages[id] && r.value.content.originalUrl == Some(url)
      ensures r == Err(NotFound) <==> id !in old(db.messages)
      ensures r == Err(Forbidden) <==> id in old(db.messages) && old(db.messages)[id].sender != u
      ensures r == Err(BadRequest) <==>
                id in old(db.messages) && old(db.messages)[id].sender == u
                && (old(db.messages)[id].isRecalled || old(db.messages)[id].isDestroyed || Filled(old(db.messages)[id].content.originalUrl))
      ensures r.Err? ==> r.error in {NotFound, Forbidden, BadRequest}
    {
      if id !in db.messages {
        return Err(NotFound);
      }
      var msg := db.messages[id];
      if msg.sender != u {
        return Err(Forbidden);
      }
      if msg.isRecalled || msg.isDestroyed || Filled(msg.content.originalUrl) {
        return Err(BadRequest);
      }
      msg := msg.(content := msg.content.(originalUrl := Some(url)));
      db.messages := db.messages[id := msg];
      return Ok(msg);
    }

    // ----- listing -----

    /** What the user may see of each row, in order; run-out copies are skipped. */
    method ApplyBurnView(ids: seq<MsgId>, u: UserId) returns (result: seq<Item>)
      requires forall id | id in ids :: id in db.messages
      ensures result == BurnView(db.Snapshot(), u, ids)
    {
      var receiptMap := map id | id in ids && db.messages[id].IsBurn() && CopyKey(id, u) in db.receipts ::
        db.receipts[CopyKey(id, u)];
      result := [];
      for i := 0 to |ids|
        invariant result == BurnView(db.Snapshot(), u, ids[..i])
      {
        assert ids[..i + 1][..i] == ids[..i];
        var id, m := ids[i], db.messages[ids[i]];
        if m.burnTtl.None? {
          result := result + [Plain(id, m)];
          continue;
        }
        if id in receiptMap && receiptMap[id].burnAt.Some? && receiptMap[id].burnAt.value <= db.now {
          continue;
        }
        if id !in receiptMap || receiptMap[id].revealedAt.None? {
          result := result + [Blurred(id, Mask(m))];
          continue;
        }
        var receipt := receiptMap[id];
        result := result + [Opened(id, m, receipt.burnAt, RemainSeconds(receipt.burnAt, m.destroyAt, db.now))];
      }
      assert ids[..|ids|] == ids;
    }

    /** The earliest and the latest time on the page. */
    method TimesOf(list: seq<Item>) returns (from: Millis, to: Millis)
      requires list != []
      ensures forall it | it in list :: from <= it.Created() <= to
      ensures exists a, b :: a in list && b in list && a.Created() == from && b.Created() == to
    {
      from, to := list[0].Created(), list[0].Created();
      ghost var a, b := list[0], list[0];
      for i := 1 to |list|
        invariant forall j | 0 <= j < i :: from <= list[j].Created() <= to
        invariant a in list && b in list && a.Created() == from && b.Created() == to
      {
        var t := list[i].Created();
        if t < from {
          from, a := t, list[i];
        }
        if t > to {
          to, b := t, list[i];
        }
      }
    }

    /** On a sorted page the earliest and latest times are those of its ends. */
    lemma TimesAreEnds(list: seq<Item>, from: Millis, to: Millis)
      requires list != [] && Sorted(list)
      requires forall it | it in list :: from <= it.Created() <= to
      requires exists a, b :: a in list && b in list && a.Created() == from && b.Created() == to
      ensures from == list[0].Created() && to == list[|list| - 1].Created()
    {
      var a, b :| a in list && b in list && a.Created() == from && b.Created() == to;
      var i :| 0 <= i < |list| && list[i] == a;
      var j :| 0 <= j < |list| && list[j] == b;
      assert list[0] in list && list[|list| - 1] in list;
      assert i > 0 ==> list[0].Created() <= list[i].Created();
      assert j < |list| - 1 ==> list[j].Created() <= list[|list| - 1].Created();
    }

    /** Appends the stand-ins that are not on the page yet. */
    method PushUnseen(list: seq<Item>, candidates: seq<Item>) returns (extra: seq<Item>)
      ensures extra == Unseen(ItemIds(list), candidates)
    {
      var seen := ItemIds(list);
      extra := [];
      for i := 0 to |candidates|
        invariant extra == Unseen(ItemIds(list), candidates[..i])
        invariant seen == ItemIds(list) + ItemIds(extra)
      {
        assert candidates[..i + 1][..i] == candidates[..i];
        if candidates[i].id in seen {
          continue;
        }
        seen := seen + {candidates[i].id};
        assert ItemIds(extra + [candidates[i]]) == ItemIds(extra) + {candidates[i].id};
        extra := extra + [candidates[i]];
      }
      assert candidates[..|candidates|] == candidates;
    }

    /** Merges the burned messages of the page's time range into the page. */
    method AttachTombstones(c: ConvId, list: seq<Item>, before: Option<Millis>, limit: nat)
      returns (merged: seq<Item>, ghost stones: seq<MsgId>, ghost marked: seq<MsgId>)
      requires Sorted(list)
      ensures forall id | id in stones :: id in db.tombstones
      ensures forall id | id in marked :: id in db.messages
      ensures Page(stones, StoneKey(db.Snapshot(), c, RangeOf(list, before)), limit)
      ensures Page(marked, MarkedKey(db.Snapshot(), c, RangeOf(list, before)), limit)
      ensures merged == Attach(db.Snapshot(), list, stones, marked)
    {
      var range := Anytime;
      if list != [] {
        var from, to := TimesOf(list);
        TimesAreEnds(list, from, to);
        range := Between(from, to);
      } else if before.Some? {
        range := Until(before.value);
      }
      var purged := Fetch(StoneKey(db.Snapshot(), c, range), limit);
      var burned := Fetch(MarkedKey(db.Snapshot(), c, range), limit);
      stones, marked := purged, burned;
      if purged == [] && burned == [] {
        return list, stones, marked;
      }
      var extra := PushUnseen(list, BurnedStones(db.Snapshot(), purged) + BurnedRows(db.Snapshot(), burned));
      merged := SortByCreated(list + extra);
    }

    method ListMessages(q: ListRequest) returns (r: Result<seq<Item>>, ghost pages: Pages)
      ensures PagesExist(db.Snapshot(), pages)
      ensures db.HasMember(q.conv, q.user) ==> PagesOf(db.Snapshot(), q, pages)
      ensures r == ViewSpec.ListMessages(db.Snapshot(), q, pages)
    {
      pages := Pages([], [], []);
      if !db.HasMember(q.conv, q.user) {
        return Err(Forbidden), pages;
      }
      var s := db.Snapshot();
      var rows := Fetch(RowKey(s, q), q.Size());
      var destroyedViews := BurnedRows(s, SelectRows(s, rows, true));
      var alive := SelectRows(s, rows, false);
      var view := ApplyBurnView(Reverse(alive), q.user);
      var merged := SortByCreated(view + destroyedViews);
      SortIsSort(view + destroyedViews);
      var list, stones, marked := AttachTombstones(q.conv, merged, q.before, q.Size());
      pages := Pages(rows, stones, marked);
      r := Ok(list);
    }

    // ----- reading -----

    /** Stands for the query a refused request never makes. */
    lemma SomePage(key: map<MsgId, int>) returns (rows: seq<MsgId>)
      ensures Page(rows, key, 1)
    {
      PageExists(key, 1);
      rows :| Page(rows, key, 1);
    }

    /** One UPDATE over the joined member and message rows. */
    method AdvanceLastRead(c: ConvId, u: UserId, candidate: MsgId)
      modifies db
      ensures db.Snapshot() == BurnSpec.AdvanceLastRead(old(db.Snapshot()), c, u, candidate)
    {
      var k := MemberKey(c, u);
      if k !in db.members || candidate !in db.messages {
        return;
      }
      var mark := db.members[k].lastRead;
      if mark.None? || mark.value !in db.messages
         || db.messages[candidate].createdAt >= db.messages[mark.value].createdAt {
        db.members := db.members[k := db.members[k].(lastRead := Some(candidate))];
      }
    }

    method UpdateReceipts(touched: set<CopyKey>)
      modifies db
      ensures db.Snapshot() == SetRead(old(db.Snapshot()), touched)
    {
      db.receipts := map k | k in db.receipts ::
        if k in touched then db.receipts[k].(isRead := true, readAt := Some(db.now)) else db.receipts[k];
    }

    lemma DedupKeepsMembers(ids: seq<MsgId>)
      ensures forall id :: id in Dedup(ids) <==> id in ids
    {
      assert forall id :: id in Dedup(ids) <==> id in Ids(Dedup(ids));
      assert forall id :: id in ids <==> id in Ids(ids);
    }

    method MarkAsRead(c: ConvId, u: UserId, upTo: Option<MsgId>) returns (r: Result<nat>, ghost newest: seq<MsgId>)
      modifies db
      ensures r == Err(Forbidden) <==> !old(db.HasMember(c, u))
      ensures r.Err? ==> r.error == Forbidden
      ensures r.Ok? ==> r.value == |set k | k in old(db.receipts) && !old(db.receipts)[k].isRead && k in db.receipts && db.receipts[k].isRead|
      ensures Performs(cfg, old(db.Snapshot()), OpMarkAsRead(c, u, upTo, newest), db.Snapshot())
    {
      hide Page, BulkMarkable, ReadBound, SetRead, NewestKey, BurnSpec.AdvanceLastRead;
      ghost var s := db.Snapshot();
      if !db.HasMember(c, u) {
        newest := SomePage(NewestKey(s, c, ReadBound(s, c, upTo)));
        return Err(Forbidden), newest;
      }
      var bound := ReadBound(db.Snapshot(), c, upTo);
      var touched := set k | k in db.receipts && BulkMarkable(db.Snapshot(), c, u, bound, k);
      UpdateReceipts(touched);
      TouchedAreNewlyRead(s, c, u, bound, touched);
      SameNewest(s, touched, c, bound);
      var last := Fetch(NewestKey(db.Snapshot(), c, bound), 1);
      newest := last;
      ghost var read := db.receipts;
      if last != [] {
        AdvanceLastRead(c, u, last[0]);
        AdvanceKeepsCopies(SetRead(s, touched), c, u, last[0]);
      }
      assert db.receipts == read;
      r := Ok(|touched|);
    }

    lemma TouchedAreNewlyRead(s: Db, c: ConvId, u: UserId, bound: Option<Millis>, touched: set<CopyKey>)
      requires touched == set k | k in s.receipts && BulkMarkable(s, c, u, bound, k)
      ensures touched == set k | k in s.receipts && !s.receipts[k].isRead && k in SetRead(s, touched).receipts && SetRead(s, touched).receipts[k].isRead
    {
    }

    lemma AdvanceKeepsCopies(s: Db, c: ConvId, u: UserId, candidate: MsgId)
      ensures BurnSpec.AdvanceLastRead(s, c, u, candidate).receipts == s.receipts
    {
    }

    /** Reading copies moves no message. */
    lemma SameNewest(s: Db, touched: set<CopyKey>, c: ConvId, bound: Option<Millis>)
      ensures NewestKey(SetRead(s, touched), c, bound) == NewestKey(s, c, bound)
    {
    }

    /** The UPDATE by message ids, and how many rows it changed. */
    method ReadListed(c: ConvId, u: UserId, ids: seq<MsgId>) returns (marked: nat)
      modifies db
      ensures db.Snapshot() == SetRead(old(db.Snapshot()), ListedUnread(old(db.Snapshot()), c, u, ids))
      ensures marked == |ListedUnread(old(db.Snapshot()), c, u, ids)|
    {
      var touched := set k | k in db.receipts && k.user == u && !db.receipts[k].isRead && k.msg in ids
                             && k.msg in db.messages && db.messages[k.msg].conv == c && !db.messages[k.msg].isDestroyed;
      UpdateReceipts(touched);
      marked := |touched|;
    }

    lemma SameList(s: Db, c: ConvId, u: UserId, ids: seq<MsgId>)
      ensures ListedUnread(s, c, u, Dedup(ids)) == ListedUnread(s, c, u, ids)
      ensures NewestListedKey(s, c, Dedup(ids)) == NewestListedKey(s, c, ids)
    {
      DedupKeepsMembers(ids);
    }

    method MarkMessagesRead(c: ConvId, u: UserId, messageIds: seq<MsgId>) returns (r: Result<nat>, ghost newest: seq<MsgId>)
      modifies db
      ensures Performs(cfg, old(db.Snapshot()), OpMarkMessagesRead(c, u, messageIds, newest), db.Snapshot())
      ensures r == BurnSpec.MarkMessagesRead(old(db.Snapshot()), c, u, messageIds, newest).1
    {
      hide Page, BurnSpec.AdvanceLastRead, Dedup, ListedUnread, NewestListedKey;
      ghost var s := db.Snapshot();
      newest := SomePage(NewestListedKey(s, c, messageIds));
      if !db.HasMember(c, u) {
        return Err(Forbidden), newest;
      }
      if c !in db.convs {
        return Err(NotFound), newest;
      }
      var ids := Dedup(messageIds);
      if |ids| == 0 || |ids| > MARK_READ_LIMIT {
        return Err(BadRequest), newest;
      }
      SameList(s, c, u, messageIds);
      var marked := ReadListed(c, u, ids);
      r := Ok(marked);
      if marked > 0 {
        SameRows(s, db.Snapshot(), c, ids);
        var latest := Fetch(NewestListedKey(db.Snapshot(), c, ids), 1);
        newest := latest;
        if latest != [] {
          AdvanceLastRead(c, u, latest[0]);
        }
      }
    }

    lemma SameRows(s: Db, s': Db, c: ConvId, ids: seq<MsgId>)
      requires s'.messages == s.messages
      ensures NewestListedKey(s', c, ids) == NewestListedKey(s, c, ids)
    {
    }
  }
}
