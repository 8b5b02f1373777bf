/** Whom the guard lets in, and what each request does to accounts and devices, said of the tables alone. */
module AccountTheorems {
  import opened Prelude
  import opened Query
  import opened AuthSpec
  import opened AuthTheorems
  import opened LoginTheorems

  // ----- the guard -----

  /** A usable account, and a device row of its own. */
  predicate IsRegistered(s: AuthDb, u: Uuid, d: Uuid) {
    && u in s.users && s.users[u].status == Active && s.users[u].deletedAt.None?
    && d in s.devices && s.devices[d].user == u
  }

  predicate MustChange(s: AuthDb, u: Uuid) {
    u in s.users && s.users[u].forceChangePwd
  }

  /** The account's columns as they are now. */
  function Columns(s: AuthDb, u: Uuid): AuthUser
    requires u in s.users
  {
    var r := s.users[u];
    AuthUser(u, r.phone, r.role, r.status, r.forceChangePwd, r.deletedAt)
  }

  lemma CachelessDecides(s: AuthDb, u: Uuid, d: Uuid, exempt: bool)
    ensures
      CachelessGuard(s, u, d, exempt) ==
        if !IsRegistered(s, u, d) then Deny(Unauthorized)
        else if MustChange(s, u) && !exempt then Deny(Forbidden)
        else Admit(Context(Columns(s, u), AuthDevice(d, u)))
  {
  }

  /**
   * Whom the guard lets in. In every run without kicks a request is admitted exactly for a
   * registered device of an active account that was not deleted and, unless the route is exempt,
   * need not change its password; it is forbidden exactly if only the last is missing; an
   * admission carries the account as it is now.
   */
  lemma GuardDecidesExactly(cfg: AuthSettings, s0: AuthDb, ops: seq<AuthOp>, u: Uuid, d: Uuid, exempt: bool)
    requires Booted(s0) && AuRun(cfg, s0, ops) && NoKicks(ops)
    ensures
      var s := AuExec(cfg, s0, ops);
      var decision := Guard(cfg, s, u, d, exempt).1;
      && (decision.Admit? <==> IsRegistered(s, u, d) && (MustChange(s, u) ==> exempt))
      && (decision == Deny(Forbidden) <==> IsRegistered(s, u, d) && MustChange(s, u) && !exempt)
      && (decision == Deny(Unauthorized) <==> !IsRegistered(s, u, d))
      && (decision.Admit? ==> decision.context == Context(Columns(s, u), AuthDevice(d, u)))
  {
    CacheRefinesDatabase(cfg, s0, ops, u, d, exempt);
    hide AuExec, AuRun, Guard;
    CachelessDecides(AuExec(cfg, s0, ops), u, d, exempt);
    hide CachelessGuard;
  }

  /** With kicks in the run, the device may also be one that was deleted while a live entry still names it. */
  lemma GuardWithKicks(cfg: AuthSettings, s0: AuthDb, ops: seq<AuthOp>, u: Uuid, d: Uuid, exempt: bool)
    requires Booted(s0) && AuRun(cfg, s0, ops)
    ensures
      var s := AuExec(cfg, s0, ops);
      var decision := Guard(cfg, s, u, d, exempt).1;
      var known := IsRegistered(s, u, d) || (LiveEntry(cfg, s, u, d) && d !in s.devices);
      && (known ==> u in s.users && s.users[u].status == Active && s.users[u].deletedAt.None?)
      && (decision.Admit? <==> known && (MustChange(s, u) ==> exempt))
      && (decision == Deny(Forbidden) <==> known && MustChange(s, u) && !exempt)
      && (decision == Deny(Unauthorized) <==> !known)
  {
    RunKeepsTrust(cfg, s0, ops, false);
    assert EntryOk(AuExec(cfg, s0, ops), u, d, false);
    hide AuExec, AuRun, Trustworthy;
  }

  /**
   * What a guard request leaves in the cache: an entry for the device exactly if it was not turned
   * away as unknown, no older than the TTL, saying what was admitted; every other entry stays. With
   * the cache off nothing is stored.
   */
  lemma GuardCachesExactly(cfg: AuthSettings, s: AuthDb, u: Uuid, d: Uuid, exempt: bool)
    ensures
      var (s', decision) := Guard(cfg, s, u, d, exempt);
      && s' == s.(cache := s'.cache)
      && (cfg.cacheTtlMs <= 0 ==> s'.cache == s.cache)
      && (cfg.cacheTtlMs > 0 ==>
            && (Key(u, d) in s'.cache <==> decision != Deny(Unauthorized))
            && (Key(u, d) in s'.cache ==> s.now - s'.cache[Key(u, d)].cachedAt <= cfg.cacheTtlMs)
            && (decision.Admit? ==> s'.cache[Key(u, d)].context == decision.context))
      && (forall k | k != Key(u, d) :: (k in s'.cache <==> k in s.cache) && (k in s.cache ==> s'.cache[k] == s.cache[k]))
  {
    hide Key, Lookup;
  }

  // ----- accounts -----

  /** The account is there, and not deleted. */
  predicate IsKept(s: AuthDb, u: Uuid) {
    u in s.users && s.users[u].deletedAt.None?
  }

  /** The deletion of somebody else's account, not an administrator's. */
  predicate Deletes(s: AuthDb, op: AuthOp, u: Uuid) {
    op.AuSoftDelete? && op.user == u && IsKept(s, u) && op.operator != u && s.users[u].role != AdminRole
  }

  predicate Toggles(s: AuthDb, op: AuthOp, u: Uuid) {
    op.AuToggleStatus? && op.user == u && IsKept(s, u)
  }

  /**
   * What every request does to an account. The forced change is set by a reset and cleared by a
   * change with the right old password; the status follows the administrator, for good once the
   * account is deleted; nothing else but the counters of failed logins ever moves, and no account
   * goes away.
   */
  lemma AccountMovesExactly(cfg: AuthSettings, s: AuthDb, op: AuthOp, u: Uuid)
    requires AuEnabled(s, op) && u in s.users
    ensures
      var (r, s') := (s.users[u], AuStep(cfg, s, op));
      && u in s'.users
      && s'.users[u] == r.(
           forceChangePwd := if op == AuChangePassword(u, true) then false else if op == AuResetPassword(u) then true else r.forceChangePwd,
           status := if Toggles(s, op, u) then op.status else if Deletes(s, op, u) then Disabled else r.status,
           deletedAt := if Deletes(s, op, u) then Some(s.now) else r.deletedAt,
           failCount := s'.users[u].failCount,
           lockedUntil := s'.users[u].lockedUntil)
  {
    if op.AuLogin? {
      LoginCounts(cfg, s, op, u);
    } else {
      hide Invalidate, CacheGet, CacheSet, DropDevicesOf;
    }
  }

  /** An account is created exactly under a phone number nobody has, usable, and with a password to change. */
  lemma AccountsComeExactly(cfg: AuthSettings, s: AuthDb, op: AuthOp, u: Uuid)
    requires AuEnabled(s, op) && u !in s.users
    ensures
      var s' := AuStep(cfg, s, op);
      && (u in s'.users <==> op.AuCreateAccount? && op.user == u && forall v | v in s.users :: s.users[v].phone != op.phone)
      && (u in s'.users ==> s'.users[u] == User(op.phone, UserRole, Active, true, None, 0, None))
  {
    if op.AuLogin? {
      LoginCounts(cfg, s, op, u);
    } else {
      hide Invalidate, CacheGet, CacheSet, DropDevicesOf;
    }
  }

  lemma {:induction false} MustChangeStays(cfg: AuthSettings, s0: AuthDb, ops: seq<AuthOp>, i: nat, u: Uuid)
    requires AuRun(cfg, s0, ops) && i <= |ops|
    requires MustChange(AuExec(cfg, s0, ops[..i]), u) && AuChangePassword(u, true) !in ops[i..]
    ensures MustChange(AuExec(cfg, s0, ops), u)
  {
    hide AuStep, AuEnabled, MustChange;
    if i == |ops| {
      assert ops[..i] == ops;
    } else {
      var n := |ops| - 1;
      assert ops[..n][..i] == ops[..i] && ops[i..] == ops[..n][i..] + [ops[n]];
      MustChangeStays(cfg, s0, ops[..n], i, u);
      MustChangeStep(cfg, AuExec(cfg, s0, ops[..n]), ops[n], u);
    }
  }

  lemma MustChangeStep(cfg: AuthSettings, s: AuthDb, op: AuthOp, u: Uuid)
    requires AuEnabled(s, op) && MustChange(s, u) && op != AuChangePassword(u, true)
    ensures MustChange(AuStep(cfg, s, op), u)
  {
    AccountMovesExactly(cfg, s, op, u);
    hide AuStep, AuEnabled;
  }

  /**
   * From the moment an account must change its password, and until it has, no run with kicks or
   * without lets it in anywhere but at the exempt routes.
   */
  lemma MustChangeFirst(cfg: AuthSettings, s0: AuthDb, ops: seq<AuthOp>, i: nat, u: Uuid, d: Uuid)
    requires Booted(s0) && AuRun(cfg, s0, ops) && i <= |ops|
    requires MustChange(AuExec(cfg, s0, ops[..i]), u) && AuChangePassword(u, true) !in ops[i..]
    ensures Guard(cfg, AuExec(cfg, s0, ops), u, d, false).1.Deny?
  {
    MustChangeStays(cfg, s0, ops, i, u);
    GuardWithKicks(cfg, s0, ops, u, d, false);
    hide AuExec, AuRun, Guard;
  }

  // ----- devices -----

  /** The request that revokes the device: its owner's, an administrator's kick, or the end of the account. */
  predicate Revokes(s: AuthDb, op: AuthOp, d: Uuid)
    requires d in s.devices
  {
    var u := s.devices[d].user;
    || op == AuRemoveDevice(u, d)
    || op == AuForceOffline(d)
    || (Toggles(s, op, u) && op.status == Disabled)
    || Deletes(s, op, u)
  }

  /**
   * What every request but a login does to a device: it goes away exactly by a removal of its
   * owner's, a kick, or the disabling or deletion of its account; otherwise only its own
   * heartbeats touch it. No request but a login brings a device.
   */
  lemma DeviceMovesExactly(cfg: AuthSettings, s: AuthDb, op: AuthOp, d: Uuid)
    requires AuEnabled(s, op) && !op.AuLogin?
    ensures
      var s' := AuStep(cfg, s, op);
      if d !in s.devices then d !in s'.devices
      else
        && (d in s'.devices <==> !Revokes(s, op, d))
        && (d in s'.devices ==>
              s'.devices[d] == if op == AuHeartbeat(s.devices[d].user, d) then s.devices[d].(lastActive := Some(s.now)) else s.devices[d])
  {
    hide Invalidate, CacheGet, CacheSet;
  }

  // ----- logins -----

  /** The account can sign in at this moment: it is there, active, not deleted and not locked. */
  predicate CanSignIn(s: AuthDb, u: Uuid) {
    && u in s.users && s.users[u].status == Active && s.users[u].deletedAt.None?
    && (s.users[u].lockedUntil.None? || s.users[u].lockedUntil.value <= s.now)
  }

  /** A second device with an empty client id. */
  predicate ClashesOnEmpty(s: AuthDb, a: Attempt) {
    a.clientId == Some("") && exists d | d in s.devices :: s.devices[d].user == a.user && s.devices[d].clientId == ""
  }

  lemma RowsOfClient(s: AuthDb, u: Uuid, clientId: string)
    ensures SameClient(s, u, clientId) == {} <==> forall d | d in s.devices :: !(s.devices[d].user == u && s.devices[d].clientId == clientId)
  {
    if d :| d in s.devices && s.devices[d].user == u && s.devices[d].clientId == clientId {
      assert d in SameClient(s, u, clientId);
    }
  }

  /**
   * Who signs in: exactly the right password of an account that can, unless the device sends an
   * empty client id that is taken. The answer names the account's device of that client id, or
   * the fresh one.
   */
  lemma LoginIsAdmittedExactly(cfg: AuthSettings, s: AuthDb, a: Attempt, reused: Option<Uuid>, drawn: Drawn, others: seq<Uuid>)
    requires LoginEnabled(s, a, reused, drawn, others)
    ensures
      var (s', r) := Login(cfg, s, a, reused, drawn, others);
      && (r.Ok? <==> CanSignIn(s, a.user) && a.passwordOk && !ClashesOnEmpty(s, a))
      && (r == Err(Unauthorized) <==> !CanSignIn(s, a.user) || !a.passwordOk)
      && (!CanSignIn(s, a.user) ==> s' == s)
      && (r.Ok? ==>
            if r.value in s.devices then s.devices[r.value].user == a.user && a.clientId == Some(s.devices[r.value].clientId) != Some("")
            else r.value == drawn.device && forall d | d in s.devices && s.devices[d].user == a.user ::
                   a.clientId != Some(s.devices[d].clientId))
  {
    RowsOfClient(s, a.user, NewClientId(a, drawn));
    RowsOfClient(s, a.user, "");
    if a.clientId.Some? {
      RowsOfClient(s, a.user, a.clientId.value);
    }
    hide Page, OthersKey, Evicted, EvictAll, SignIn;
  }
}
