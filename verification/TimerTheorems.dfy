/** What the timers of a burn message mean: the requested life, the window a reveal opens, the time shown. */
module TimerTheorems {
  import opened Prelude
  import opened ChatDb
  import opened BurnSpec

  const THIRTY_DAYS: nat := 30 * 24 * 60 * 60

  /** `seconds` is the least whole number of seconds that covers `ms`. */
  predicate LeastCover(seconds: int, ms: int) {
    ms <= seconds * 1000 < ms + 1000
  }

  lemma CeilIsLeastCover(ms: int)
    ensures LeastCover(CeilSeconds(ms), ms)
  {
  }

  /**
   * The normalised life of a burn message. A positive request is rounded up to the next whole
   * second; an absolute instant in the future is turned into the least number of seconds that
   * reaches it; both are capped at thirty days; everything else means no burning at all.
   */
  lemma NormalizedTtl(ttl: Option<real>, destroyAt: Option<int>, now: Millis)
    ensures
      var n := NormalizeBurnTtl(ttl, destroyAt, now);
      var asked := ttl.Some? && ttl.value > 0.0;
      var dated := destroyAt.Some? && destroyAt.value > now;
      && (n.None? <==> !asked && !dated)
      && (asked ==> n.value == THIRTY_DAYS <= CeilReal(ttl.value)
                    || (ttl.value <= n.value as real < ttl.value + 1.0 && n.value < THIRTY_DAYS))
      && (!asked && dated ==> n.value == THIRTY_DAYS || LeastCover(n.value, destroyAt.value - now))
      && (!asked && dated && n.value == THIRTY_DAYS ==> destroyAt.value > now + (THIRTY_DAYS - 1) * 1000)
  {
    if ttl.Some? {
      assert -(-ttl.value) == ttl.value;
    }
    if destroyAt.Some? {
      CeilIsLeastCover(destroyAt.value - now);
    }
  }

  /** An old client that sends the instant k seconds from now gets exactly the k seconds a new one asks for. */
  lemma OldClientsRoundTrip(k: nat, now: Millis)
    requires 1 <= k <= MAX_BURN_TTL_SECONDS
    ensures NormalizeBurnTtl(None, Some(now + k * 1000), now) == Some(k) == NormalizeBurnTtl(Some(k as real), None, now)
  {
    assert CeilReal(k as real) == k by {
      var n: int := k;
      assert -(n as real) == (-n) as real;
    }
    assert CeilSeconds(k * 1000) == k;
  }

  // ----- playable media -----

  /** `c` is the letter, digit or dot `e`, in either case. */
  predicate SameLetter(c: char, e: char) {
    c == e || ('A' <= c <= 'Z' && c - 'A' + 'a' == e)
  }

  /** The name ends in the extension, in any letter case. */
  predicate EndsIn(name: string, ext: string) {
    |ext| <= |name| && forall i | 0 <= i < |ext| :: SameLetter(name[|name| - |ext| + i], ext[i])
  }

  predicate IsVideoFile(name: string) {
    || EndsIn(name, ".mp4") || EndsIn(name, ".webm") || EndsIn(name, ".mov") || EndsIn(name, ".m4v")
    || EndsIn(name, ".mkv") || EndsIn(name, ".avi") || EndsIn(name, ".3gp")
  }

  /** A voice message, a video, or a file with the name of one. */
  predicate Plays(m: Message) {
    m.kind == Voice || m.kind == Video || (m.kind == File && m.content.fileName.Some? && IsVideoFile(m.content.fileName.value))
  }

  lemma SuffixInAnyCase(name: string, ext: string)
    requires forall i | 0 <= i < |ext| :: !('A' <= ext[i] <= 'Z')
    ensures HasSuffix(LowerCase(name), ext) <==> EndsIn(name, ext)
  {
    if |ext| <= |name| {
      var tail := LowerCase(name)[|name| - |ext|..];
      assert forall i | 0 <= i < |ext| :: tail[i] == LowerCase(name)[|name| - |ext| + i];
      assert forall i | 0 <= i < |ext| :: tail[i] == ext[i] <==> SameLetter(name[|name| - |ext| + i], ext[i]);
      if EndsIn(name, ext) {
        assert tail == ext;
      }
    }
  }

  lemma VideoFiles(name: string)
    ensures (exists ext | ext in VIDEO_EXTENSIONS :: HasSuffix(LowerCase(name), ext)) <==> IsVideoFile(name)
  {
    var exts := VIDEO_EXTENSIONS;
    forall i | 0 <= i < |exts| ensures HasSuffix(LowerCase(name), exts[i]) <==> EndsIn(name, exts[i]) {
      SuffixInAnyCase(name, exts[i]);
    }
    hide EndsIn, HasSuffix, LowerCase;
    assert exts[0] == ".mp4" && exts[1] == ".webm" && exts[2] == ".mov" && exts[3] == ".m4v";
    assert exts[4] == ".mkv" && exts[5] == ".avi" && exts[6] == ".3gp";
    if IsVideoFile(name) {
      var i :| 0 <= i < |exts| && EndsIn(name, exts[i]);
      assert exts[i] in VIDEO_EXTENSIONS;
    }
  }

  lemma MediaPlay(m: Message)
    ensures IsMediaBurn(m) <==> Plays(m)
  {
    hide IsVideoFile, HasSuffix, LowerCase;
    if m.content.fileName.Some? {
      VideoFiles(m.content.fileName.value);
    }
  }

  // ----- windows -----

  /** The window of a first reveal covers the sender's setting, and for a medium of known length the playing time and the buffer. */
  lemma WindowCoversTheMedium(cfg: Config, m: Message, duration: Option<int>)
    requires m.IsBurn()
    ensures
      var w := RevealWindow(cfg, m, duration);
      var length := if m.mediaDuration.Some? then m.mediaDuration else duration;
      && w >= m.burnTtl.value
      && (!Plays(m) ==> w == m.burnTtl.value)
      && (Plays(m) && length.Some? && length.value > 0 ==> w == Max(m.burnTtl.value, length.value + cfg.mediaBufferSeconds))
      && (Plays(m) && !(length.Some? && length.value > 0) ==> w == Max(m.burnTtl.value, cfg.mediaWindowSeconds))
  {
    MediaPlay(m);
    hide IsMediaBurn, Plays;
  }

  /** The shown seconds are the least that cover the time to the nearer deadline, and zero once it has passed. */
  lemma RemainIsLeastCover(burnAt: Option<Millis>, destroyAt: Option<Millis>, now: Millis)
    requires burnAt.Some?
    ensures
      var deadline := if destroyAt.Some? then Min(burnAt.value, destroyAt.value) else burnAt.value;
      var n := RemainSeconds(burnAt, destroyAt, now);
      && (n == 0 <==> deadline <= now)
      && (deadline > now ==> LeastCover(n, deadline - now))
  {
    var deadline := if destroyAt.Some? then Min(burnAt.value, destroyAt.value) else burnAt.value;
    CeilIsLeastCover(deadline - now);
  }
}
