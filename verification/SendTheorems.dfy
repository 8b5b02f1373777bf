/** What an accepted message stores, for whom, and what it never stores. */
module SendTheorems {
  import opened Prelude
  import opened ChatDb
  import opened BurnSpec
  import opened Runs
  import opened MembershipTheorems

  lemma {:induction false} MembersOnlyFilters(s: Db, c: ConvId, users: seq<UserId>)
    ensures forall u :: u in MembersOnly(s, c, users) <==> u in users && s.IsMember(c, u)
    ensures Distinct(users) ==> Distinct(MembersOnly(s, c, users))
  {
    if users != [] {
      var rest := users[1..];
      assert users == [users[0]] + rest;
      MembersOnlyFilters(s, c, rest);
      if Distinct(users) {
        assert forall j | 0 <= j < |rest| :: rest[j] == users[j + 1] && users[0] != users[j + 1];
        assert users[0] !in rest;
      }
    }
  }

  /** Nobody can be mentioned who is not a member, every mentioned member is kept, and once. */
  lemma MentionsAreMembers(cfg: Config, s: Db, d: Draft)
    ensures
      var mentions := Compose(cfg, s, d).mentions;
      && Distinct(mentions)
      && forall u :: u in mentions <==> u in d.mentions && s.IsMember(d.conv, u)
  {
    var unique := Dedup(d.mentions);
    MembersOnlyFilters(s, d.conv, unique);
    assert forall u :: u in unique <==> u in Ids(unique);
    assert forall u :: u in d.mentions <==> u in Ids(d.mentions);
  }

  /**
   * The plaintext of an encrypted message does not reach the database: whatever text comes
   * with it, the request has the same outcome and leaves the same tables.
   */
  lemma PlaintextLeavesNoTrace(cfg: Config, s: Db, id: MsgId, d: Draft, text: Option<string>)
    requires Encrypted(d.content)
    ensures Send(cfg, s, id, d) == Send(cfg, s, id, d.(content := d.content.(text := text)))
    ensures Send(cfg, s, id, d).1.Ok? ==> Send(cfg, s, id, d).1.value.content.text == Some(ENCRYPTED_PLACEHOLDER)
  {
    var d' := d.(content := d.content.(text := text));
    hide MembersOnly, Dedup, NormalizeBurnTtl;
    assert StoredContent(d'.content) == StoredContent(d.content);
    assert NewCopies(s, id, d') == NewCopies(s, id, d);
  }

  /**
   * What an accepted send adds: the message itself; one copy per member of the conversation,
   * read exactly if it is the sender's, unopened for all; nothing else. A refused send adds nothing.
   */
  lemma SendAddsOneRow(cfg: Config, s: Db, id: MsgId, d: Draft, k: CopyKey)
    requires Enabled(s, OpSend(id, d)) && k.msg == id && k !in s.receipts
    ensures
      var (s', r) := Send(cfg, s, id, d);
      && s' == s.(messages := s'.messages, receipts := s'.receipts)
      && (r.Err? ==> s' == s)
      && (r.Ok? ==>
            && s'.messages == s.messages[id := r.value] && !r.value.isDestroyed && r.value.createdAt == s.now
            && (k in s'.receipts <==> s.IsMember(d.conv, k.user))
            && (k in s'.receipts ==>
                  s'.receipts[k] == Receipt(k.user == d.sender, if k.user == d.sender then Some(s.now) else None, None, None)))
      && (forall x | x in s.receipts && x.msg != id :: x in s'.receipts && s'.receipts[x] == s.receipts[x])
  {
    hide Dedup, MembersOnly, NormalizeBurnTtl, StoredContent;
    assert MemberKey(d.conv, k.user) in s.Roster(d.conv) <==> s.IsMember(d.conv, k.user);
    assert k in NewCopies(s, id, d) <==> s.IsMember(d.conv, k.user);
  }

  // ----- who may send what -----

  predicate Empty(field: Option<string>) {
    field == None || field == Some("")
  }

  /** The three cipher fields are all there. */
  predicate Sealed(c: Content) {
    !Empty(c.cipherNonce) && !Empty(c.cipherText) && !Empty(c.ephemeralKey)
  }

  /** None of them is. */
  predicate InTheOpen(c: Content) {
    Empty(c.cipherNonce) && Empty(c.cipherText) && Empty(c.ephemeralKey)
  }

  /** The sender may post in the conversation: a member of one that is not dissolved, and in a channel its owner. */
  predicate MayPost(s: Db, c: ConvId, u: UserId) {
    && MemberKey(c, u) in s.members && c in s.convs && s.convs[c].dissolvedAt.None?
    && (s.convs[c].kind == Channel ==> s.convs[c].owner == Some(u))
  }

  /** A text says something or is sealed; anything else carries a file. */
  predicate HasSubstance(d: Draft) {
    if d.kind == Text then Sealed(d.content) || !Empty(d.content.text) else !Empty(d.content.fileUrl)
  }

  lemma ChannelRoles(cfg: Config, s: Db, c: ConvId, u: UserId)
    requires Reachable(cfg, s) && c in s.convs && s.convs[c].kind == Channel && s.IsMember(c, u)
    ensures s.members[MemberKey(c, u)].role == Owner <==> s.convs[c].owner == Some(u)
  {
    ReachableIsCoherent(cfg, s);
    hide Reachable, Coherent;
    CoherentParts(s, false, MemberKey(c, u), c, c);
  }

  /** A message is taken exactly from those who may post, sealed or in the open, and with substance. */
  lemma SendIsAcceptedExactly(cfg: Config, s: Db, id: MsgId, d: Draft)
    requires Reachable(cfg, s)
    ensures
      var r := Send(cfg, s, id, d).1;
      && (r.Ok? <==> MayPost(s, d.conv, d.sender) && (Sealed(d.content) || InTheOpen(d.content)) && HasSubstance(d))
      && (r == Err(BadRequest) <==>
            MayPost(s, d.conv, d.sender) && !((Sealed(d.content) || InTheOpen(d.content)) && HasSubstance(d)))
  {
    hide Reachable, Compose, NewCopies;
    if s.IsMember(d.conv, d.sender) && d.conv in s.convs && s.convs[d.conv].kind == Channel {
      ChannelRoles(cfg, s, d.conv, d.sender);
    }
  }

  /** The row says what the draft said; of a sealed message the ciphertext, and in place of the text a placeholder. */
  predicate SaysDraft(d: Draft, m: Message) {
    && m.conv == d.conv && m.sender == d.sender && m.kind == d.kind && m.mediaDuration == d.mediaDuration
    && m.isEncrypted == Sealed(d.content)
    && m.content == (if Sealed(d.content) then d.content.(text := Some("[加密消息]"))
                     else d.content.(cipherNonce := None, cipherText := None, ephemeralKey := None))
  }

  lemma SentSaysDraft(cfg: Config, s: Db, id: MsgId, d: Draft)
    requires Send(cfg, s, id, d).1.Ok?
    ensures
      var (s', r) := Send(cfg, s, id, d);
      && id in s'.messages && s'.messages[id] == r.value
      && SaysDraft(d, r.value) && r.value.replyTo == d.replyTo && r.value.createdAt == s.now
      && !r.value.isEdited && !r.value.isRecalled && !r.value.isDestroyed
      && r.value.burnTtl == NormalizeBurnTtl(d.burnTtl, d.destroyAt, s.now)
      && r.value.destroyAt == (if r.value.burnTtl.None? then None
                               else Some(s.now + Max(cfg.fallbackMs, r.value.burnTtl.value * 1000)))
  {
    hide NewCopies, Dedup, MembersOnly, NormalizeBurnTtl;
  }
}
