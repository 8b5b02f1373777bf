/** The database the chat services write to, one field a table. */
module Tables {
  import opened ChatDb
  import opened Runs

  class Database {
    var now: Millis
    var messages: map<MsgId, Message>
    var receipts: map<CopyKey, Receipt>
    var acks: set<CopyKey>
    var tombstones: map<MsgId, Tombstone>
    var convs: map<ConvId, Conversation>
    var members: map<MemberKey, Membership>

    constructor (startedAt: Millis)
      ensures Initial(Snapshot()) && now == startedAt
    {
      now := startedAt;
      messages, receipts, acks, tombstones, convs, members := map[], map[], {}, map[], map[], map[];
    }

    function Snapshot(): Db
      reads this
    {
      Db(now, messages, receipts, acks, tombstones, convs, members)
    }

    predicate HasMember(c: ConvId, u: UserId)
      reads this
    {
      MemberKey(c, u) in members
    }
  }

  /** From `s`, a request that performs `op` got to `s'`: it is a step of the run model. */
  ghost predicate Performs(cfg: Config, s: Db, op: Op, s': Db) {
    Enabled(s, op) && s' == Step(cfg, s, op)
  }
}
