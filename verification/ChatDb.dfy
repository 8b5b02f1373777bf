/** The tables the chat services share, as one immutable snapshot. */
module ChatDb {
  import opened Prelude

  // UUIDs are modelled as natural numbers; times are milliseconds on the server's clock.
  type MsgId = nat
  type UserId = nat
  type ConvId = nat
  type Millis = nat

  const MAX_BURN_TTL_SECONDS: nat := 30 * 24 * 3600
  const EDIT_WINDOW: nat := 48 * 3600 * 1000
  const DAY: nat := 86400 * 1000
  const MARK_BATCH: nat := 500
  const SWEEP_BATCH: nat := 200
  const PENDING_LIMIT: nat := 500
  const MARK_READ_LIMIT: nat := 200

  /** The environment settings, after the parsing defaults have been applied. */
  datatype Settings = Settings(
    fallbackMs: nat,           // BURN_FALLBACK_TTL_HOURS
    mediaBufferSeconds: nat,   // BURN_MEDIA_BUFFER_SECONDS
    mediaWindowSeconds: nat,   // BURN_MEDIA_DEFAULT_WINDOW_SECONDS
    ackThreshold: nat,         // PURGE_ACK_THRESHOLD
    ackFallbackDays: int)      // ACK_FALLBACK_DAYS
  {
    predicate Parsed() {
      fallbackMs > 0 && mediaBufferSeconds > 0 && mediaWindowSeconds > 0
    }
  }

  type Config = c: Settings | c.Parsed() witness Settings(1, 30, 300, 1, 7)

  datatype MessageKind = Text | Image | Voice | Video | File

  datatype DestroyReason = FallbackExpired | AllRead | Manual

  /** The columns that carry what was said. */
  datatype Content = Content(
    text: Option<string>,
    fileUrl: Option<string>,
    fileName: Option<string>,
    fileSize: Option<nat>,
    originalUrl: Option<string>,
    cipherNonce: Option<string>,
    cipherText: Option<string>,
    ephemeralKey: Option<string>)

  const BLANK := Content(None, None, None, None, None, None, None, None)

  datatype Message = Message(
    conv: ConvId,
    sender: UserId,
    kind: MessageKind,
    content: Content,
    mediaDuration: Option<int>,
    replyTo: Option<MsgId>,
    mentions: seq<UserId>,
    isEncrypted: bool,
    isEdited: bool,
    isRecalled: bool,
    createdAt: Millis,
    burnTtl: Option<nat>,
    destroyAt: Option<Millis>,
    isDestroyed: bool,
    destroyedAt: Option<Millis>,
    destroyReason: Option<DestroyReason>)
  {
    predicate Expired(now: Millis) {
      destroyAt.Some? && destroyAt.value <= now
    }

    predicate IsBurn() {
      burnTtl.Some?
    }
  }

  datatype Receipt = Receipt(
    isRead: bool,
    readAt: Option<Millis>,
    revealedAt: Option<Millis>,
    burnAt: Option<Millis>)
  {
    predicate RunOut(now: Millis) {
      burnAt.Some? && burnAt.value <= now
    }
  }

  datatype Tombstone = Tombstone(
    conv: ConvId,
    sender: UserId,
    kind: MessageKind,
    createdAt: Millis,
    destroyedAt: Millis,
    destroyReason: DestroyReason)

  datatype ConversationKind = Private | Group | Channel

  datatype Conversation = Conversation(
    kind: ConversationKind,
    owner: Option<UserId>,
    isPublic: bool,
    memberCount: int,
    dissolvedAt: Option<Millis>,
    dissolvedBy: Option<UserId>)

  datatype Role = Owner | Member

  datatype Membership = Membership(role: Role, lastRead: Option<MsgId>)

  /** `(message_id, user_id)`, the unique key of receipts and of destroy confirmations. */
  datatype CopyKey = CopyKey(msg: MsgId, user: UserId)

  /** `(conversation_id, user_id)`. */
  datatype MemberKey = MemberKey(conv: ConvId, user: UserId)

  datatype Db = Db(
    now: Millis,
    messages: map<MsgId, Message>,
    receipts: map<CopyKey, Receipt>,
    acks: set<CopyKey>,
    tombstones: map<MsgId, Tombstone>,
    convs: map<ConvId, Conversation>,
    members: map<MemberKey, Membership>)
  {
    predicate IsMember(c: ConvId, u: UserId) {
      MemberKey(c, u) in members
    }

    /** The member rows of a conversation. */
    function Roster(c: ConvId): set<MemberKey> {
      set k | k in members && k.conv == c
    }

    /** Who confirmed that a message may be purged. */
    function AckedBy(id: MsgId): set<CopyKey> {
      set k | k in acks && k.msg == id
    }

    /** The owner (or the account-deletion cascade) dissolved the conversation, which burns its messages. */
    predicate BurnedDown(c: ConvId) {
      c in convs && convs[c].dissolvedBy.Some?
    }
  }
}
