/** What each message request and each scheduler tick does to the tables. */
module BurnSpec {
  import opened Prelude
  import opened ChatDb

  // ----- message.service.ts: expression-only helpers -----

  const VIDEO_EXTENSIONS := [".mp4", ".webm", ".mov", ".m4v", ".mkv", ".avi", ".3gp"]

  function LowerCase(s: string): string {
    seq(|s|, i requires 0 <= i < |s| => if 'A' <= s[i] <= 'Z' then s[i] - 'A' + 'a' else s[i])
  }

  predicate HasSuffix(s: string, suffix: string) {
    |suffix| <= |s| && s[|s| - |suffix|..] == suffix
  }

  predicate IsMediaBurn(m: Message) {
    || m.kind == Voice
    || m.kind == Video
    || (m.kind == File && m.content.fileName.Some?
        && exists ext | ext in VIDEO_EXTENSIONS :: HasSuffix(LowerCase(m.content.fileName.value), ext))
  }

  function MediaWindow(cfg: Config, ttl: nat, duration: Option<int>): nat {
    Max(ttl, if duration.Some? && duration.value > 0 then duration.value + cfg.mediaBufferSeconds
             else cfg.mediaWindowSeconds)
  }

  /** How long, in seconds, a first reveal keeps the copy open. The stored duration wins over the request's. */
  function RevealWindow(cfg: Config, m: Message, duration: Option<int>): nat
    requires m.IsBurn()
  {
    if IsMediaBurn(m) then
      MediaWindow(cfg, m.burnTtl.value, if m.mediaDuration.Some? then m.mediaDuration else duration)
    else
      m.burnTtl.value
  }

  function CeilReal(x: real): int {
    -((-x).Floor)
  }

  /** The requested seconds win; an absolute instant is only a fallback for old clients. */
  function NormalizeBurnTtl(ttl: Option<real>, destroyAt: Option<int>, now: Millis): (seconds: Option<nat>)
    ensures seconds.Some? ==> 1 <= seconds.value <= MAX_BURN_TTL_SECONDS
  {
    if ttl.Some? && ttl.value > 0.0 then
      Some(Min(CeilReal(ttl.value), MAX_BURN_TTL_SECONDS))
    else if destroyAt.Some? && destroyAt.value - now > 0 then
      Some(Min(Max(1, CeilSeconds(destroyAt.value - now)), MAX_BURN_TTL_SECONDS))
    else
      None
  }

  function RemainSeconds(burnAt: Option<Millis>, destroyAt: Option<Millis>, now: Millis): nat {
    if burnAt.None? then
      0
    else
      var deadline := if destroyAt.Some? then Min(burnAt.value, destroyAt.value) else burnAt.value;
      Max(0, CeilSeconds(deadline - now))
  }

  // ----- sendMessage -----

  datatype Draft = Draft(
    conv: ConvId,
    sender: UserId,
    kind: MessageKind,
    content: Content,
    mediaDuration: Option<int>,
    replyTo: Option<MsgId>,
    burnTtl: Option<real>,
    destroyAt: Option<int>,
    mentions: seq<UserId>)

  const ENCRYPTED_PLACEHOLDER := "[加密消息]"

  predicate Filled(field: Option<string>) {
    field.Some? && field.value != ""
  }

  predicate Encrypted(c: Content) {
    Filled(c.cipherNonce) && Filled(c.cipherText) && Filled(c.ephemeralKey)
  }

  predicate HalfEncrypted(c: Content) {
    !Encrypted(c) && (Filled(c.cipherNonce) || Filled(c.cipherText) || Filled(c.ephemeralKey))
  }

  function SendError(s: Db, d: Draft): Option<HttpError> {
    if !s.IsMember(d.conv, d.sender) then
      Some(Forbidden)
    else if d.conv !in s.convs then
      Some(NotFound)
    else if s.convs[d.conv].dissolvedAt.Some? then
      Some(Forbidden)
    else if s.convs[d.conv].kind == Channel && s.members[MemberKey(d.conv, d.sender)].role != Owner then
      Some(Forbidden)
    else if HalfEncrypted(d.content) then
      Some(BadRequest)
    else if d.kind == Text && !Filled(d.content.text) && !Encrypted(d.content) then
      Some(BadRequest)
    else if d.kind != Text && !Filled(d.content.fileUrl) then
      Some(BadRequest)
    else
      None
  }

  function StoredContent(c: Content): Content {
    if Encrypted(c) then
      c.(text := Some(ENCRYPTED_PLACEHOLDER))
    else
      c.(cipherNonce := None, cipherText := None, ephemeralKey := None)
  }

  function MembersOnly(s: Db, c: ConvId, users: seq<UserId>): seq<UserId> {
    if users == [] then
      []
    else
      (if s.IsMember(c, users[0]) then [users[0]] else []) + MembersOnly(s, c, users[1..])
  }

  function Compose(cfg: Config, s: Db, d: Draft): Message {
    var ttl := NormalizeBurnTtl(d.burnTtl, d.destroyAt, s.now);
    Message(d.conv, d.sender, d.kind, StoredContent(d.content), d.mediaDuration, d.replyTo,
            MembersOnly(s, d.conv, Dedup(d.mentions)), Encrypted(d.content), false, false, s.now, ttl,
            if ttl.Some? then Some(s.now + Max(cfg.fallbackMs, ttl.value * 1000)) else None,
            false, None, None)
  }

  function NewCopies(s: Db, id: MsgId, d: Draft): map<CopyKey, Receipt> {
    map k | k in (set m | m in s.Roster(d.conv) :: CopyKey(id, m.user)) ::
      Receipt(k.user == d.sender, if k.user == d.sender then Some(s.now) else None, None, None)
  }

  /** `id` is the fresh UUID the database assigns. */
  function Send(cfg: Config, s: Db, id: MsgId, d: Draft): (Db, Result<Message>) {
    if SendError(s, d).Some? then
      (s, Err(SendError(s, d).value))
    else
      var m := Compose(cfg, s, d);
      (s.(messages := s.messages[id := m], receipts := s.receipts + NewCopies(s, id, d)), Ok(m))
  }

  // ----- revealMessage, consumeMessage -----

  datatype Revealed = Revealed(message: Message, burnAt: Option<Millis>, remainSeconds: nat, mediaPending: bool)

  const UNREAD_COPY := Receipt(false, None, None, None)

  function CopyOf(s: Db, id: MsgId, u: UserId): Receipt {
    var k := CopyKey(id, u);
    if k in s.receipts then s.receipts[k] else UNREAD_COPY
  }

  function RevealError(s: Db, id: MsgId, u: UserId): Option<HttpError> {
    if id !in s.messages || s.messages[id].isDestroyed then
      Some(NotFound)
    else
      var m := s.messages[id];
      if !s.IsMember(m.conv, u) then
        Some(Forbidden)
      else if !m.IsBurn() then
        Some(BadRequest)
      else if m.isRecalled then
        Some(BadRequest)
      else if m.Expired(s.now) then
        Some(NotFound)
      else if CopyOf(s, id, u).RunOut(s.now) then
        Some(NotFound)
      else
        None
  }

  /** An admitted reveal that starts the user's own countdown. */
  predicate FirstReveal(s: Db, id: MsgId, u: UserId) {
    RevealError(s, id, u).None? && CopyOf(s, id, u).revealedAt.None?
  }

  /** Starts the countdown and pushes the message's own deadline back if it would come first. */
  function OpenCopy(s: Db, id: MsgId, u: UserId, burnAt: Millis): Db
    requires id in s.messages
  {
    var m := s.messages[id];
    var floor := if m.destroyAt.Some? then m.destroyAt.value else 0;
    var started := CopyOf(s, id, u).(revealedAt := Some(s.now), burnAt := Some(burnAt),
                                     isRead := true, readAt := Some(s.now));
    s.(receipts := s.receipts[CopyKey(id, u) := started],
       messages := s.messages[id := if burnAt > floor then m.(destroyAt := Some(burnAt)) else m])
  }

  function RevealedView(s: Db, id: MsgId, u: UserId): Revealed
    requires id in s.messages
  {
    var m, r := s.messages[id], CopyOf(s, id, u);
    Revealed(m, r.burnAt, RemainSeconds(r.burnAt, m.destroyAt, s.now), IsMediaBurn(m))
  }

  function Reveal(cfg: Config, s: Db, id: MsgId, u: UserId, duration: Option<int>): (Db, Result<Revealed>) {
    if RevealError(s, id, u).Some? then
      (s, Err(RevealError(s, id, u).value))
    else
      var s' := if FirstReveal(s, id, u) then
                  OpenCopy(s, id, u, s.now + RevealWindow(cfg, s.messages[id], duration) * 1000)
                else s;
      (s', Ok(RevealedView(s', id, u)))
  }

  datatype Consumed = Consumed(already: bool)

  function Consume(s: Db, id: MsgId, u: UserId): (Db, Result<Consumed>) {
    if id !in s.messages then
      (s, Ok(Consumed(true)))
    else
      var m, k := s.messages[id], CopyKey(id, u);
      if !s.IsMember(m.conv, u) then
        (s, Err(Forbidden))
      else if !m.IsBurn() || !IsMediaBurn(m) || m.isRecalled then
        (s, Err(BadRequest))
      else if k !in s.receipts || s.receipts[k].revealedAt.None? then
        (s, Err(BadRequest))
      else if s.receipts[k].RunOut(s.now) then
        (s, Ok(Consumed(true)))
      else
        (s.(receipts := s.receipts[k := s.receipts[k].(burnAt := Some(s.now))]), Ok(Consumed(false)))
  }

  // ----- editMessage, recallMessage, updateOriginalFile -----

  /** The checks edit and recall share: present, the caller's own, and not older than 48 hours. */
  function OwnRecentError(s: Db, id: MsgId, u: UserId): Option<HttpError> {
    if id !in s.messages || s.messages[id].isDestroyed then
      Some(NotFound)
    else if s.messages[id].sender != u then
      Some(Forbidden)
    else if s.now > s.messages[id].createdAt + EDIT_WINDOW then
      Some(BadRequest)
    else
      None
  }

  function Edit(s: Db, id: MsgId, u: UserId, text: string): Db {
    if OwnRecentError(s, id, u).Some? || s.messages[id].isRecalled || s.messages[id].IsBurn() then
      s
    else
      var m := s.messages[id];
      s.(messages := s.messages[id := m.(content := m.content.(text := Some(text)), isEdited := true)])
  }

  function Recall(s: Db, id: MsgId, u: UserId): Db {
    if OwnRecentError(s, id, u).Some? then s
    else s.(messages := s.messages[id := s.messages[id].(isRecalled := true)])
  }

  function PatchOriginal(s: Db, id: MsgId, u: UserId, url: string): Db {
    if id !in s.messages then
      s
    else
      var m := s.messages[id];
      if m.sender != u || m.isRecalled || m.isDestroyed || Filled(m.content.originalUrl) then
        s
      else
        s.(messages := s.messages[id := m.(content := m.content.(originalUrl := Some(url)))])
  }

  // ----- markAsRead, markMessagesRead, advanceLastRead -----

  function ReadBound(s: Db, c: ConvId, upTo: Option<MsgId>): Option<Millis> {
    if upTo.Some? && upTo.value in s.messages && s.messages[upTo.value].conv == c then
      Some(s.messages[upTo.value].createdAt)
    else
      None
  }

  predicate WithinBound(m: Message, bound: Option<Millis>) {
    bound.Some? ==> m.createdAt <= bound.value
  }

  predicate BulkMarkable(s: Db, c: ConvId, u: UserId, bound: Option<Millis>, k: CopyKey)
    requires k in s.receipts
  {
    && k.user == u
    && !s.receipts[k].isRead
    && k.msg in s.messages
    && var m := s.messages[k.msg];
       && m.conv == c
       && !m.isDestroyed
       && !m.isEncrypted
       && (m.IsBurn() ==> s.receipts[k].revealedAt.Some?)
       && WithinBound(m, bound)
  }

  function SetRead(s: Db, ks: set<CopyKey>): Db {
    s.(receipts := map k | k in s.receipts ::
         if k in ks then s.receipts[k].(isRead := true, readAt := Some(s.now)) else s.receipts[k])
  }

  /** The newest message within the bound; the newest row is a page of one. */
  function NewestKey(s: Db, c: ConvId, bound: Option<Millis>): map<MsgId, int> {
    map id | id in s.messages && s.messages[id].conv == c && WithinBound(s.messages[id], bound) ::
      -(s.messages[id].createdAt as int)
  }

  function AdvanceLastRead(s: Db, c: ConvId, u: UserId, candidate: MsgId): Db {
    var k := MemberKey(c, u);
    if k !in s.members || candidate !in s.messages then
      s
    else
      var mark := s.members[k].lastRead;
      if mark.None? || mark.value !in s.messages
         || s.messages[candidate].createdAt >= s.messages[mark.value].createdAt then
        s.(members := s.members[k := s.members[k].(lastRead := Some(candidate))])
      else
        s
  }

  /** `newest` is the page of one the database returned. */
  function MarkAsRead(s: Db, c: ConvId, u: UserId, upTo: Option<MsgId>, newest: seq<MsgId>): Db {
    if !s.IsMember(c, u) then
      s
    else
      var bound := ReadBound(s, c, upTo);
      var s1 := SetRead(s, set k | k in s.receipts && BulkMarkable(s, c, u, bound, k));
      if newest == [] then s1 else AdvanceLastRead(s1, c, u, newest[0])
  }

  function MarkMessagesReadError(s: Db, c: ConvId, u: UserId, ids: seq<MsgId>): Option<HttpError> {
    if !s.IsMember(c, u) then
      Some(Forbidden)
    else if c !in s.convs then
      Some(NotFound)
    else if |Dedup(ids)| == 0 || |Dedup(ids)| > MARK_READ_LIMIT then
      Some(BadRequest)
    else
      None
  }

  function ListedUnread(s: Db, c: ConvId, u: UserId, ids: seq<MsgId>): set<CopyKey> {
    set k | k in s.receipts && k.user == u && !s.receipts[k].isRead && k.msg in ids
            && k.msg in s.messages && s.messages[k.msg].conv == c && !s.messages[k.msg].isDestroyed
  }

  function NewestListedKey(s: Db, c: ConvId, ids: seq<MsgId>): map<MsgId, int> {
    map id | id in s.messages && id in ids && s.messages[id].conv == c :: -(s.messages[id].createdAt as int)
  }

  function MarkMessagesRead(s: Db, c: ConvId, u: UserId, ids: seq<MsgId>, newest: seq<MsgId>): (Db, Result<nat>) {
    if MarkMessagesReadError(s, c, u, ids).Some? then
      (s, Err(MarkMessagesReadError(s, c, u, ids).value))
    else
      var ks := ListedUnread(s, c, u, ids);
      var s1 := SetRead(s, ks);
      (if ks == {} || newest == [] then s1 else AdvanceLastRead(s1, c, u, newest[0]), Ok(|ks|))
  }

  // ----- BurnScheduler.markDestroyed, AdminMessageService.manualDestroy -----

  /** Rule R1: the absolute deadline has passed. */
  predicate R1(s: Db, id: MsgId)
    requires id in s.messages
  {
    !s.messages[id].isDestroyed && s.messages[id].Expired(s.now)
  }

  /** A copy rule R2 counts: somebody else's than the sender's. */
  predicate Counts(s: Db, id: MsgId, k: CopyKey)
    requires id in s.messages
  {
    k in s.receipts && k.msg == id && k.user != s.messages[id].sender
  }

  predicate ReadOut(r: Receipt, now: Millis) {
    r.revealedAt.Some? && r.RunOut(now)
  }

  /** Rule R2: at least one recipient, and every recipient's copy was opened and has run out. */
  predicate R2(s: Db, id: MsgId)
    requires id in s.messages
  {
    && !s.messages[id].isDestroyed
    && s.messages[id].IsBurn()
    && (exists k | k in s.receipts :: Counts(s, id, k))
    && (forall k | k in s.receipts :: Counts(s, id, k) ==> ReadOut(s.receipts[k], s.now))
  }

  function R1Key(s: Db): map<MsgId, int> {
    map id | id in s.messages && R1(s, id) :: s.messages[id].createdAt as int
  }

  function R2Key(s: Db): map<MsgId, int> {
    map id | id in s.messages && R2(s, id) :: s.messages[id].createdAt as int
  }

  function Marked(m: Message, at: Millis, reason: DestroyReason): Message {
    if m.isDestroyed then m
    else m.(isDestroyed := true, destroyedAt := Some(at), destroyReason := Some(reason))
  }

  /** One guarded UPDATE: rows that something else marked first keep their stamp. */
  function MarkRows(s: Db, rows: set<MsgId>, at: Millis, reason: DestroyReason): Db {
    s.(messages := map id | id in s.messages ::
         if id in rows then Marked(s.messages[id], at, reason) else s.messages[id])
  }

  function AfterR1(s: Db, rows1: seq<MsgId>): Db {
    MarkRows(s, Ids(rows1), s.now, FallbackExpired)
  }

  /** `rows1` and `rows2` are the two pages the tick selected. */
  function MarkDestroyed(s: Db, rows1: seq<MsgId>, rows2: seq<MsgId>): Db {
    MarkRows(AfterR1(s, rows1), Ids(rows2), s.now, AllRead)
  }

  function ManualDestroy(s: Db, id: MsgId): Db {
    if id in s.messages then MarkRows(s, {id}, s.now, Manual) else s
  }

  // ----- DestroyService -----

  function TombstoneOf(m: Message, now: Millis): Tombstone {
    Tombstone(m.conv, m.sender, m.kind, m.createdAt,
              if m.destroyedAt.Some? then m.destroyedAt.value else now,
              if m.destroyReason.Some? then m.destroyReason.value else Manual)
  }

  function CutReply(m: Message, ids: set<MsgId>): Message {
    if m.replyTo.Some? && m.replyTo.value in ids then m.(replyTo := None) else m
  }

  /** Replaces marked rows by tombstones; everything that hangs off them goes with them. */
  function PurgeRows(s: Db, ids: set<MsgId>): Db
    requires ids <= s.messages.Keys
  {
    s.(tombstones := (map id | id in s.tombstones.Keys + ids ::
         if id in ids then TombstoneOf(s.messages[id], s.now) else s.tombstones[id]),
       acks := (set k | k in s.acks && k.msg !in ids),
       receipts := (map k | k in s.receipts && k.msg !in ids :: s.receipts[k]),
       messages := (map id | id in s.messages && id !in ids :: CutReply(s.messages[id], ids)))
  }

  /** The marked rows of the conversation the user has not confirmed yet. */
  function Pending(s: Db, c: ConvId, u: UserId): set<MsgId> {
    set id | id in s.messages && s.messages[id].conv == c && s.messages[id].isDestroyed
             && CopyKey(id, u) !in s.acks
  }

  /** NULLs sort first; every marked row carries a time (see `ChatInvariant`). */
  function MarkTime(m: Message): int {
    if m.destroyedAt.Some? then m.destroyedAt.value else -1
  }

  function PendingKey(s: Db, c: ConvId, u: UserId): map<MsgId, int> {
    map id | id in s.messages && id in Pending(s, c, u) :: MarkTime(s.messages[id])
  }

  function Listed(s: Db, c: ConvId, ids: seq<MsgId>): set<MsgId> {
    set id | id in s.messages && id in ids && s.messages[id].conv == c
  }

  function AckError(s: Db, c: ConvId, u: UserId, ids: seq<MsgId>): Option<HttpError> {
    if !s.IsMember(c, u) then
      Some(Forbidden)
    else if ids == [] then
      None
    else if c !in s.convs then
      Some(BadRequest)
    else if exists id | id in Listed(s, c, ids) :: !s.messages[id].isDestroyed then
      Some(BadRequest)
    else
      None
  }

  function RecordAcks(s: Db, ids: set<MsgId>, u: UserId): Db {
    s.(acks := s.acks + (set id | id in ids :: CopyKey(id, u)))
  }

  predicate MeetsPurgePolicy(cfg: Config, s: Db, c: ConvId, id: MsgId)
    requires c in s.convs
  {
    var ackCount := |s.AckedBy(id)|;
    if s.convs[c].kind == Private then
      ackCount >= 1
    else if cfg.ackThreshold >= 1 then
      ackCount >= cfg.ackThreshold
    else if id !in s.messages then
      true
    else
      var need := |s.Roster(c) - {MemberKey(c, s.messages[id].sender)}|;
      need > 0 && ackCount >= need
  }

  function AckPurges(cfg: Config, s: Db, c: ConvId, u: UserId, ids: seq<MsgId>): set<MsgId>
    requires c in s.convs
  {
    var listed := Listed(s, c, ids);
    set id | id in listed && MeetsPurgePolicy(cfg, RecordAcks(s, listed, u), c, id)
  }

  datatype AckResult = AckResult(acked: nat, purgedIds: set<MsgId>)

  function Ack(cfg: Config, s: Db, c: ConvId, u: UserId, ids: seq<MsgId>): (Db, Result<AckResult>) {
    if AckError(s, c, u, ids).Some? then
      (s, Err(AckError(s, c, u, ids).value))
    else if ids == [] then
      (s, Ok(AckResult(0, {})))
    else
      var listed := Listed(s, c, ids);
      var purged := AckPurges(cfg, s, c, u, ids);
      (PurgeRows(RecordAcks(s, listed, u), purged), Ok(AckResult(|listed|, purged)))
  }

  function SweepKey(s: Db): map<MsgId, int> {
    map id | id in s.messages && s.messages[id].isDestroyed && s.messages[id].conv in s.convs ::
      MarkTime(s.messages[id])
  }

  predicate SweepPolicy(cfg: Config, s: Db, id: MsgId)
    requires id in s.messages && s.messages[id].conv in s.convs
  {
    if s.convs[s.messages[id].conv].kind == Private then |s.AckedBy(id)| >= 1
    else cfg.ackThreshold >= 1 && |s.AckedBy(id)| >= cfg.ackThreshold
  }

  function Cutoff(cfg: Config, now: Millis): int {
    now - cfg.ackFallbackDays * DAY
  }

  predicate Overdue(cfg: Config, s: Db, id: MsgId)
    requires id in s.messages
  {
    cfg.ackFallbackDays > 0 && s.messages[id].destroyedAt.Some?
    && s.messages[id].destroyedAt.value < Cutoff(cfg, s.now)
  }

  predicate SweepRemoves(cfg: Config, s: Db, id: MsgId)
    requires id in s.messages && s.messages[id].conv in s.convs
  {
    SweepPolicy(cfg, s, id) || Overdue(cfg, s, id)
  }

  /** What one sweep removes from the page it selected. */
  function SweepPurges(cfg: Config, s: Db, rows: seq<MsgId>): set<MsgId> {
    set id | id in rows && id in s.messages && s.messages[id].conv in s.convs && s.messages[id].isDestroyed
             && SweepRemoves(cfg, s, id)
  }

  function Sweep(cfg: Config, s: Db, rows: seq<MsgId>): Db {
    PurgeRows(s, SweepPurges(cfg, s, rows))
  }
}
