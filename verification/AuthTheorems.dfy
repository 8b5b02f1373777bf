/** The cache agrees with the database, logins are throttled, and devices are capped. */
module AuthTheorems {
  import opened Prelude
  import opened Query
  import opened AuthSpec

  // ----- cache keys -----

  lemma KeyIsInjective(u: Uuid, d: string, v: Uuid, e: string)
    requires Key(u, d) == Key(v, e)
    ensures u == v && d == e
  {
    var k := Key(u, d);
    assert k[|u|] == ':' && k[|v|] == ':';
    assert k[..|u|] == u && k[..|v|] == v;
    assert |u| == |v| by {
      assert forall i | 0 <= i < |u| :: k[i] == k[..|u|][i];
      assert forall i | 0 <= i < |v| :: k[i] == k[..|v|][i];
    }
    assert d == k[|u| + 1..] && e == k[|v| + 1..];
  }

  /** Clearing by the prefix "user:" hits the user's own keys and nobody else's. */
  lemma PrefixIsExact(u: Uuid, v: Uuid, e: string)
    ensures StartsWith(Key(v, e), u + ":") <==> u == v
  {
    assert Key(v, e)[..|v| + 1] == v + ":";
    if StartsWith(Key(v, e), u + ":") {
      var rest := Key(v, e)[|u| + 1..];
      assert Key(v, e) == Key(u, rest);
      KeyIsInjective(v, e, u, rest);
    }
  }

  lemma InvalidateUserIsExact(cache: Cache, u: Uuid, v: Uuid, e: string)
    ensures Key(v, e) in Invalidate(cache, u, "") <==> v != u && Key(v, e) in cache
    ensures Key(v, e) in Invalidate(cache, u, "") ==> Invalidate(cache, u, "")[Key(v, e)] == cache[Key(v, e)]
    ensures Invalidate(cache, "", "") == map[]
  {
    PrefixIsExact(u, v, e);
  }

  lemma InvalidateDeviceIsExact(cache: Cache, u: Uuid, d: Uuid, v: Uuid, e: Uuid)
    ensures Key(v, e) in Invalidate(cache, u, d) <==> !(v == u && e == d) && Key(v, e) in cache
    ensures Key(v, e) in Invalidate(cache, u, d) ==> Invalidate(cache, u, d)[Key(v, e)] == cache[Key(v, e)]
  {
    if Key(v, e) == Key(u, d) {
      KeyIsInjective(v, e, u, d);
    }
  }

  // ----- what a cached entry may be trusted for -----

  /**
   * An entry repeats the account's current row, and the account is usable. `strict` adds that
   * the device still exists, which an administrator's kick breaks.
   */
  ghost predicate EntryOk(s: AuthDb, u: Uuid, d: Uuid, strict: bool) {
    Key(u, d) in s.cache ==>
      var e := s.cache[Key(u, d)];
      && e.cachedAt <= s.now
      && u in s.users && s.users[u].Usable()
      && (d in s.devices ==> s.devices[d].user == u && Lookup(s, u, d) == Some(e.context))
      && e.context.user.forceChangePwd == s.users[u].forceChangePwd
      && (strict ==> d in s.devices)
  }

  ghost predicate Trustworthy(s: AuthDb, strict: bool) {
    forall u: Uuid, d: Uuid :: EntryOk(s, u, d, strict)
  }

  lemma {:induction false} EvictAllEffect(s: AuthDb, u: Uuid, gone: seq<Uuid>, v: Uuid, e: Uuid)
    ensures
      var s' := EvictAll(s, u, gone);
      && s'.now == s.now && s'.users == s.users
      && s'.devices == s.devices - Ids(gone)
      && (Key(v, e) in s'.cache <==> Key(v, e) in s.cache && !(v == u && e in gone))
      && (Key(v, e) in s'.cache ==> s'.cache[Key(v, e)] == s.cache[Key(v, e)])
  {
    if gone == [] {
      assert s.devices - Ids(gone) == s.devices;
    } else {
      var n := |gone| - 1;
      EvictAllEffect(s, u, gone[..n], v, e);
      InvalidateDeviceIsExact(EvictAll(s, u, gone[..n]).cache, u, gone[n], v, e);
      assert gone == gone[..n] + [gone[n]];
      assert Ids(gone) == Ids(gone[..n]) + {gone[n]};
    }
  }

  /** A sign-in saves a row for the user's own device and resets counters the guard does not read. */
  lemma SignInKeeps(s: AuthDb, a: Attempt, current: Uuid, clientId: string, v: Uuid, e: Uuid, strict: bool)
    requires EntryOk(s, v, e, strict) && a.user in s.users && s.users[a.user].Usable()
    requires if current in s.devices then s.devices[current].user == a.user
             else forall u | u in s.users :: Key(u, current) !in s.cache
    ensures EntryOk(SignIn(s, a, current, clientId), v, e, strict)
  {
  }

  lemma EvictAllKeeps(s: AuthDb, u: Uuid, gone: seq<Uuid>, v: Uuid, e: Uuid, strict: bool)
    requires EntryOk(s, v, e, strict)
    requires forall d | d in gone :: d in s.devices ==> s.devices[d].user == u
    ensures EntryOk(EvictAll(s, u, gone), v, e, strict)
  {
    EvictAllEffect(s, u, gone, v, e);
  }

  lemma {:induction false} EvictedAreOthers(cfg: AuthSettings, others: seq<Uuid>)
    ensures forall d | d in Evicted(cfg, others) :: d in others
  {
  }

  lemma LoginKeeps(cfg: AuthSettings, s: AuthDb, a: Attempt, reused: Option<Uuid>, drawn: Drawn, others: seq<Uuid>,
                   v: Uuid, e: Uuid, strict: bool)
    requires EntryOk(s, v, e, strict) && LoginEnabled(s, a, reused, drawn, others)
    ensures EntryOk(Login(cfg, s, a, reused, drawn, others).0, v, e, strict)
  {
    if ChecksPassword(s, a) && a.passwordOk {
      var current := CurrentDevice(reused, drawn);
      var clientId := if reused.Some? then s.devices[reused.value].clientId else NewClientId(a, drawn);
      if reused.Some? || SameClient(s, a.user, clientId) == {} {
        SignInKeeps(s, a, current, clientId, v, e, strict);
        EvictedAreOthers(cfg, others);
        assert forall d | d in others :: d in OthersKey(s, a.user, current);
        hide SignIn, EntryOk, Evicted, Page;
        SignInDevices(s, a, current, clientId);
        EvictAllKeeps(SignIn(s, a, current, clientId), a.user, Evicted(cfg, others), v, e, strict);
      }
    }
  }

  lemma SignInDevices(s: AuthDb, a: Attempt, current: Uuid, clientId: string)
    requires a.user in s.users
    ensures SignIn(s, a, current, clientId).devices == s.devices[current := Device(a.user, clientId, Some(s.now))]
    ensures SignIn(s, a, current, clientId).cache == s.cache && SignIn(s, a, current, clientId).now == s.now
  {
  }

  lemma GuardKeeps(cfg: AuthSettings, s: AuthDb, u: Uuid, d: Uuid, exempt: bool, v: Uuid, e: Uuid, strict: bool)
    requires EntryOk(s, v, e, strict)
    ensures EntryOk(Guard(cfg, s, u, d, exempt).0, v, e, strict)
  {
    if Key(u, d) == Key(v, e) {
      KeyIsInjective(u, d, v, e);
    }
  }

  /** Writes to one account clear every entry of that account. */
  lemma AccountWriteKeeps(cfg: AuthSettings, s: AuthDb, op: AuthOp, v: Uuid, e: Uuid, strict: bool)
    requires op.AuChangePassword? || op.AuResetPassword? || op.AuToggleStatus? || op.AuSoftDelete?
    requires EntryOk(s, v, e, strict)
    ensures EntryOk(AuStep(cfg, s, op), v, e, strict)
  {
    InvalidateUserIsExact(s.cache, op.user, v, e);
    hide Invalidate;
  }

  lemma DeviceWriteKeeps(cfg: AuthSettings, s: AuthDb, op: AuthOp, v: Uuid, e: Uuid, strict: bool)
    requires op.AuRemoveDevice? || op.AuHeartbeat? || op.AuElapse? || op.AuCreateAccount? || (op.AuForceOffline? && !strict)
    requires AuEnabled(s, op)
    requires EntryOk(s, v, e, strict)
    ensures EntryOk(AuStep(cfg, s, op), v, e, strict)
  {
    if op.AuRemoveDevice? {
      InvalidateDeviceIsExact(s.cache, op.user, op.device, v, e);
    }
    hide Invalidate;
  }

  lemma StepKeepsTrust(cfg: AuthSettings, s: AuthDb, op: AuthOp, strict: bool)
    requires Trustworthy(s, strict) && AuEnabled(s, op) && !(strict && op.AuForceOffline?)
    ensures Trustworthy(AuStep(cfg, s, op), strict)
  {
    forall v: Uuid, e: Uuid ensures EntryOk(AuStep(cfg, s, op), v, e, strict) {
      assert EntryOk(s, v, e, strict);
      hide EntryOk, Trustworthy;
      match op
      case AuGuard(u, d, exempt) => GuardKeeps(cfg, s, u, d, exempt, v, e, strict);
      case AuLogin(a, reused, drawn, others) => LoginKeeps(cfg, s, a, reused, drawn, others, v, e, strict);
      case AuChangePassword(_, _) => AccountWriteKeeps(cfg, s, op, v, e, strict);
      case AuResetPassword(_) => AccountWriteKeeps(cfg, s, op, v, e, strict);
      case AuToggleStatus(_, _) => AccountWriteKeeps(cfg, s, op, v, e, strict);
      case AuSoftDelete(_, _) => AccountWriteKeeps(cfg, s, op, v, e, strict);
      case _ => DeviceWriteKeeps(cfg, s, op, v, e, strict);
    }
  }

  predicate NoKicks(ops: seq<AuthOp>) {
    forall op | op in ops :: !op.AuForceOffline?
  }

  lemma {:induction false} RunKeepsTrust(cfg: AuthSettings, s: AuthDb, ops: seq<AuthOp>, strict: bool)
    requires Booted(s) && AuRun(cfg, s, ops) && (strict ==> NoKicks(ops))
    ensures Trustworthy(AuExec(cfg, s, ops), strict)
  {
    if ops != [] {
      var n := |ops| - 1;
      RunKeepsTrust(cfg, s, ops[..n], strict);
      StepKeepsTrust(cfg, AuExec(cfg, s, ops[..n]), ops[n], strict);
    }
  }

  // ----- refinement -----

  /**
   * Over every run of guard requests, logins with their evictions, password changes and
   * resets, status changes, deletions and device removals, the cached guard decides every
   * request as the guard without a cache does.
   */
  lemma CacheRefinesDatabase(cfg: AuthSettings, s0: AuthDb, ops: seq<AuthOp>, u: Uuid, d: Uuid, exempt: bool)
    requires Booted(s0) && AuRun(cfg, s0, ops) && NoKicks(ops)
    ensures
      var s := AuExec(cfg, s0, ops);
      Guard(cfg, s, u, d, exempt).1 == CachelessGuard(s, u, d, exempt)
  {
    RunKeepsTrust(cfg, s0, ops, true);
    assert EntryOk(AuExec(cfg, s0, ops), u, d, true);
  }

  /** A live entry of the cache. */
  predicate LiveEntry(cfg: AuthSettings, s: AuthDb, u: Uuid, d: Uuid) {
    cfg.cacheTtlMs > 0 && Key(u, d) in s.cache && !Stale(cfg, s.cache[Key(u, d)], s.now)
  }

  /**
   * With administrators' kicks in the run, the two guards part ways exactly on requests of a
   * device whose row is gone while an entry for it is still live.
   */
  lemma CacheDivergesExactlyOnKicks(cfg: AuthSettings, s0: AuthDb, ops: seq<AuthOp>, u: Uuid, d: Uuid, exempt: bool)
    requires Booted(s0) && AuRun(cfg, s0, ops)
    ensures
      var s := AuExec(cfg, s0, ops);
      Guard(cfg, s, u, d, exempt).1 == CachelessGuard(s, u, d, exempt) <==> !(LiveEntry(cfg, s, u, d) && d !in s.devices)
  {
    RunKeepsTrust(cfg, s0, ops, false);
    assert EntryOk(AuExec(cfg, s0, ops), u, d, false);
  }

  const ALICE: Uuid := "a"
  const PHONE: Uuid := "d"

  /** One usable account with one device, before any request. */
  function OneAccount(): AuthDb {
    AuthDb(0, map[ALICE := User("1", UserRole, Active, false, None, 0, None)], map[PHONE := Device(ALICE, "c", None)], map[])
  }

  /**
   * The diverging case occurs: a guard request fills the cache, an administrator kicks the
   * device, and for the whole TTL the cached guard goes on admitting it.
   */
  lemma KickedDeviceIsAdmitted(cfg: AuthSettings, dt: nat) returns (ops: seq<AuthOp>)
    requires cfg.cacheTtlMs > 0 && dt <= cfg.cacheTtlMs
    ensures Booted(OneAccount()) && AuRun(cfg, OneAccount(), ops)
    ensures
      var s := AuExec(cfg, OneAccount(), ops);
      && LiveEntry(cfg, s, ALICE, PHONE) && PHONE !in s.devices
      && Guard(cfg, s, ALICE, PHONE, false).1.Admit? && CachelessGuard(s, ALICE, PHONE, false) == Deny(Unauthorized)
  {
    var a, b, c := AuGuard(ALICE, PHONE, false), AuForceOffline(PHONE), AuElapse(dt);
    ops := [a, b, c];
    assert [a, b, c][..2] == [a, b] && [a, b][..1] == [a] && [a][..0] == [];
    var s0 := OneAccount();
    assert AuExec(cfg, s0, []) == s0;
    assert AuExec(cfg, s0, [a]) == AuStep(cfg, s0, a);
    assert AuExec(cfg, s0, [a, b]) == AuStep(cfg, AuStep(cfg, s0, a), b);
    assert AuExec(cfg, s0, ops) == AuStep(cfg, AuStep(cfg, AuStep(cfg, s0, a), b), c);
    assert AuRun(cfg, s0, []) && AuRun(cfg, s0, [a]) && AuRun(cfg, s0, [a, b]);
  }

  // ----- how stale an admission can be -----

  /** The entry was copied from the database at some moment of the run. */
  ghost predicate Sourced(cfg: AuthSettings, s0: AuthDb, ops: seq<AuthOp>, u: Uuid, d: Uuid) {
    var s := AuExec(cfg, s0, ops);
    Key(u, d) in s.cache ==> exists i :: SourcedAt(cfg, s0, ops, i, u, d, s.cache[Key(u, d)])
  }

  ghost predicate SourcedAt(cfg: AuthSettings, s0: AuthDb, ops: seq<AuthOp>, i: int, u: Uuid, d: Uuid, e: Entry) {
    0 <= i <= |ops|
    && AuExec(cfg, s0, ops[..i]).now == e.cachedAt
    && Lookup(AuExec(cfg, s0, ops[..i]), u, d) == Some(e.context)
  }

  /** A step invents no entry: each is an old one, or what the database says right now. */
  lemma StepSources(cfg: AuthSettings, s: AuthDb, op: AuthOp, u: Uuid, d: Uuid)
    ensures
      var s' := AuStep(cfg, s, op);
      Key(u, d) in s'.cache ==>
        || (Key(u, d) in s.cache && s'.cache[Key(u, d)] == s.cache[Key(u, d)])
        || (s'.cache[Key(u, d)].cachedAt == s.now && Lookup(s, u, d) == Some(s'.cache[Key(u, d)].context))
  {
    match op
    case AuGuard(v, e, exempt) =>
      if Key(u, d) == Key(v, e) {
        KeyIsInjective(u, d, v, e);
      }
    case AuLogin(a, reused, drawn, others) =>
      if ChecksPassword(s, a) && a.passwordOk {
        var current := CurrentDevice(reused, drawn);
        if reused.Some? && reused.value in s.devices {
          EvictAllEffect(SignIn(s, a, reused.value, s.devices[reused.value].clientId), a.user, Evicted(cfg, others), u, d);
        } else {
          EvictAllEffect(SignIn(s, a, drawn.device, NewClientId(a, drawn)), a.user, Evicted(cfg, others), u, d);
        }
      }
    case _ =>
  }

  lemma {:induction false} EntriesAreSourced(cfg: AuthSettings, s0: AuthDb, ops: seq<AuthOp>, u: Uuid, d: Uuid)
    requires Booted(s0)
    ensures Sourced(cfg, s0, ops, u, d)
  {
    if ops != [] {
      var n := |ops| - 1;
      var before, s := ops[..n], AuExec(cfg, s0, ops);
      EntriesAreSourced(cfg, s0, before, u, d);
      StepSources(cfg, AuExec(cfg, s0, before), ops[n], u, d);
      if Key(u, d) in s.cache {
        var e := s.cache[Key(u, d)];
        hide AuExec;
        if Key(u, d) in AuExec(cfg, s0, before).cache && e == AuExec(cfg, s0, before).cache[Key(u, d)] {
          var i :| SourcedAt(cfg, s0, before, i, u, d, e);
          assert before[..i] == ops[..i];
          assert SourcedAt(cfg, s0, ops, i, u, d, e);
        } else {
          assert SourcedAt(cfg, s0, ops, n, u, d, e);
        }
      }
    }
  }

  /**
   * Whatever happens, kicks included: every decision the guard takes at time t is the one the
   * guard without a cache took, or would have taken, at some moment of the run in [t - ttl, t].
   */
  lemma {:induction false} DecisionsAreRecent(cfg: AuthSettings, s0: AuthDb, ops: seq<AuthOp>, u: Uuid, d: Uuid, exempt: bool)
    requires Booted(s0) && AuRun(cfg, s0, ops)
    ensures
      var s := AuExec(cfg, s0, ops);
      exists i :: 0 <= i <= |ops|
        && var past := AuExec(cfg, s0, ops[..i]);
           && s.now - Max(0, cfg.cacheTtlMs) <= past.now <= s.now
           && Guard(cfg, s, u, d, exempt).1 == CachelessGuard(past, u, d, exempt)
  {
    var s := AuExec(cfg, s0, ops);
    if LiveEntry(cfg, s, u, d) {
      EntriesAreSourced(cfg, s0, ops, u, d);
      RunKeepsTrust(cfg, s0, ops, false);
      assert EntryOk(s, u, d, false);
      var i :| SourcedAt(cfg, s0, ops, i, u, d, s.cache[Key(u, d)]);
      var past := AuExec(cfg, s0, ops[..i]);
      assert Guard(cfg, s, u, d, exempt).1 == CachelessGuard(past, u, d, exempt);
    } else {
      assert ops[..|ops|] == ops;
    }
  }
}
