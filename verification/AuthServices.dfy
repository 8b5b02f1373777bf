/** auth-cache.service.ts, jwt-auth.guard.ts, auth.service.ts and account.service.ts. */
module AuthServices {
  import opened Prelude
  import opened Query
  import opened AuthSpec

  class AuthCacheService {
    const cfg: AuthSettings
    var cache: Cache

    constructor (cfg: AuthSettings)
      ensures this.cfg == cfg && cache == map[]
    {
      this.cfg := cfg;
      cache := map[];
    }

    predicate Enabled() {
      cfg.cacheTtlMs > 0
    }

    method Get(now: Millis, u: string, d: string) returns (hit: Option<Context>)
      modifies this
      ensures (cache, hit) == CacheGet(cfg, old(cache), now, u, d)
    {
      if !Enabled() {
        return None;
      }
      var k := Key(u, d);
      if k !in cache {
        return None;
      }
      var entry := cache[k];
      if now - entry.cachedAt > cfg.cacheTtlMs {
        cache := cache - {k};
        return None;
      }
      return Some(entry.context);
    }

    method Set(now: Millis, u: string, d: string, context: Context)
      modifies this
      ensures cache == CacheSet(cfg, old(cache), now, u, d, context)
    {
      if !Enabled() {
        return;
      }
      cache := cache[Key(u, d) := Entry(context, now)];
    }

    /** Removes what `AuthSpec.Invalidate` says, and counts it. */
    method Invalidate(u: string, d: string) returns (removed: nat)
      modifies this
      ensures cache == AuthSpec.Invalidate(old(cache), u, d)
      ensures removed == |old(cache)| - |cache|
    {
      removed := 0;
      if u != "" && d != "" {
        if Key(u, d) in cache {
          SizeAfterDelete(cache, Key(u, d));
          cache := cache - {Key(u, d)};
          removed := 1;
        }
        assert cache == AuthSpec.Invalidate(old(cache), u, d);
      } else if u != "" {
        removed := DropByPrefix(u + ":");
      } else {
        removed := |cache|;
        cache := map[];
      }
    }

    /** The loop over a copy of the keys. */
    method DropByPrefix(prefix: string) returns (removed: nat)
      modifies this
      ensures cache == map k | k in old(cache) && !StartsWith(k, prefix) :: old(cache)[k]
      ensures removed == |old(cache)| - |cache|
    {
      removed := 0;
      var rest := cache.Keys;
      while rest != {}
        invariant rest <= old(cache).Keys
        invariant cache == map k | k in old(cache) && (k in rest || !StartsWith(k, prefix)) :: old(cache)[k]
        invariant removed == |old(cache)| - |cache|
        decreases rest
      {
        var k :| k in rest;
        rest := rest - {k};
        if StartsWith(k, prefix) {
          SizeAfterDelete(cache, k);
          cache := cache - {k};
          removed := removed + 1;
        }
      }
    }

    lemma SizeAfterDelete(m: Cache, k: string)
      requires k in m
      ensures |m - {k}| == |m| - 1
    {
      assert (m - {k}).Keys == m.Keys - {k};
      assert |m.Keys| == |m| && |(m - {k}).Keys| == |m - {k}|;
    }
  }

  /** The account and device tables. */
  class AccountTables {
    var now: Millis
    var users: map<Uuid, User>
    var devices: map<Uuid, Device>

    constructor (startedAt: Millis)
      ensures now == startedAt && users == map[] && devices == map[]
    {
      now, users, devices := startedAt, map[], map[];
    }
  }

  /** The tables and the cache as one value. */
  function Snapshot(db: AccountTables, authCache: AuthCacheService): AuthDb
    reads db, authCache
  {
    AuthDb(db.now, db.users, db.devices, authCache.cache)
  }

  class JwtAuthGuard {
    const db: AccountTables
    const authCache: AuthCacheService

    constructor (db: AccountTables, authCache: AuthCacheService)
      ensures this.db == db && this.authCache == authCache
    {
      this.db, this.authCache := db, authCache;
    }

    /** `(u, d)` is the payload of a valid token; `exempt` says the route is on the whitelist. */
    method CanActivate(u: Uuid, d: Uuid, exempt: bool) returns (decision: Decision)
      modifies authCache
      ensures AuPerforms(authCache.cfg, old(Snapshot(db, authCache)), AuGuard(u, d, exempt), Snapshot(db, authCache))
      ensures decision == Guard(authCache.cfg, old(Snapshot(db, authCache)), u, d, exempt).1
    {
      var context;
      var cached := authCache.Get(db.now, u, d);
      if cached.Some? {
        context := cached.value;
      } else {
        if u !in db.users || db.users[u].status != Active || db.users[u].deletedAt.Some? {
          return Deny(Unauthorized);
        }
        if d !in db.devices || db.devices[d].user != u {
          return Deny(Unauthorized);
        }
        var row := db.users[u];
        context := Context(AuthUser(u, row.phone, row.role, row.status, row.forceChangePwd, row.deletedAt), AuthDevice(d, u));
        authCache.Set(db.now, u, d, context);
      }
      if context.user.forceChangePwd {
        if !exempt {
          return Deny(Forbidden);
        }
      }
      return Admit(context);
    }
  }

  class AuthService {
    const db: AccountTables
    const authCache: AuthCacheService

    constructor (db: AccountTables, authCache: AuthCacheService)
      ensures this.db == db && this.authCache == authCache
    {
      this.db, this.authCache := db, authCache;
    }

    /** Deletes device rows one at a time, each with its cache entry. */
    method Evict(u: Uuid, gone: seq<Uuid>)
      modifies db`devices, authCache
      ensures Snapshot(db, authCache) == EvictAll(old(Snapshot(db, authCache)), u, gone)
    {
      hide AuthSpec.Invalidate;
      for i := 0 to |gone|
        invariant db.now == old(db.now) && db.users == old(db.users)
        invariant Snapshot(db, authCache) == EvictAll(old(Snapshot(db, authCache)), u, gone[..i])
      {
        assert gone[..i + 1][..i] == gone[..i];
        db.devices := db.devices - {gone[i]};
        var removed := authCache.Invalidate(u, gone[i]);
      }
      assert gone[..|gone|] == gone;
    }

    /** Single-session mode evicts every other device; otherwise the least recently active over the cap. */
    method ApplySessionPolicy(u: Uuid, current: Uuid) returns (ghost others: seq<Uuid>)
      modifies db`devices, authCache
      ensures Page(others, OthersKey(old(Snapshot(db, authCache)), u, current), |old(db.devices)|)
      ensures Snapshot(db, authCache) == EvictAll(old(Snapshot(db, authCache)), u, Evicted(authCache.cfg, others))
    {
      var rows := Fetch(OthersKey(Snapshot(db, authCache), u, current), |db.devices|);
      others := rows;
      if authCache.cfg.policy == Single && |rows| > 0 {
        Evict(u, rows);
        return;
      }
      var max := authCache.cfg.maxDevices;
      if max > 0 && |rows| + 1 > max {
        Evict(u, rows[max - 1..]);
      }
    }

    /** The row the client id names, if the client sent one. */
    method FindDevice(a: Attempt) returns (found: Option<Uuid>)
      ensures if Reused(Snapshot(db, authCache), a) == {} then found.None?
              else found.Some? && found.value in Reused(Snapshot(db, authCache), a)
    {
      if !Given(a.clientId) {
        return None;
      }
      var rows := set d | d in db.devices && db.devices[d].user == a.user && db.devices[d].clientId == a.clientId.value;
      assert rows == Reused(Snapshot(db, authCache), a);
      if rows == {} {
        return None;
      }
      var d :| d in rows;
      return Some(d);
    }

    lemma SomeOthers(s: AuthDb, u: Uuid, current: Uuid) returns (others: seq<Uuid>)
      ensures Page(others, OthersKey(s, u, current), |s.devices|)
    {
      PageExists(OthersKey(s, u, current), |s.devices|);
      others :| Page(others, OthersKey(s, u, current), |s.devices|);
    }

    /** Saves the device row: an update of a known row, or an insert the unique index may refuse. */
    method SaveDevice(a: Attempt, found: Option<Uuid>, drawn: Drawn) returns (r: Result<Uuid>)
      requires found.Some? ==> found.value in db.devices && db.devices[found.value].user == a.user
      requires a.user in db.users
      modifies db`devices
      ensures
        var s, clientId := old(Snapshot(db, authCache)), NewClientId(a, drawn);
        if found.Some? then
          r == Ok(found.value) && db.devices == s.devices[found.value := Device(a.user, s.devices[found.value].clientId, Some(db.now))]
        else if SameClient(s, a.user, clientId) != {} then
          r == Err(ServerError) && db.devices == s.devices
        else
          r == Ok(drawn.device) && db.devices == s.devices[drawn.device := Device(a.user, clientId, Some(db.now))]
    {
      if found.Some? {
        var device := db.devices[found.value];
        db.devices := db.devices[found.value := device.(lastActive := Some(db.now))];
        return Ok(found.value);
      }
      var clientId := if a.clientId.Some? then a.clientId.value else drawn.clientId;
      var clash := set d | d in db.devices && db.devices[d].user == a.user && db.devices[d].clientId == clientId;
      assert clash == SameClient(Snapshot(db, authCache), a.user, clientId);
      if clash != {} {
        return Err(ServerError);
      }
      db.devices := db.devices[drawn.device := Device(a.user, clientId, Some(db.now))];
      return Ok(drawn.device);
    }

    /** The counter after a wrong password: the fifth in a row locks the account and starts over. */
    method CountFailure(u: Uuid)
      requires u in db.users
      modifies db`users
      ensures db.users == old(db.users)[u := AuthSpec.CountFailure(old(db.users)[u], db.now)]
    {
      var user := db.users[u];
      var failCount := user.failCount + 1;
      if failCount >= MAX_LOGIN_FAILS {
        db.users := db.users[u := user.(failCount := 0, lockedUntil := Some(db.now + LOCK_MS))];
      } else {
        db.users := db.users[u := user.(failCount := failCount)];
      }
    }

    /** After the right password: reset the counters, save the device, apply the session policy. */
    method AdmitDevice(a: Attempt, found: Option<Uuid>, drawn: Drawn) returns (r: Result<Uuid>, ghost others: seq<Uuid>)
      requires ChecksPassword(Snapshot(db, authCache), a) && a.passwordOk
      requires found.Some? ==> found.value in db.devices && db.devices[found.value].user == a.user
      modifies db, authCache
      ensures Page(others, OthersKey(old(Snapshot(db, authCache)), a.user, CurrentDevice(found, drawn)), |old(db.devices)|)
      ensures (Snapshot(db, authCache), r)
              == AuthSpec.Login(authCache.cfg, old(Snapshot(db, authCache)), a, found, drawn, others)
    {
      hide Page, Evicted, EvictAll, OthersKey, SameClient, NewClientId, ClientIdOf, SignIn, Unlocked, AuthSpec.Login;
      ghost var s := Snapshot(db, authCache);
      r := RegisterDevice(a, found, drawn);
      if r.Ok? {
        ghost var s1 := Snapshot(db, authCache);
        others := ApplySessionPolicy(a.user, r.value);
        SavingKeepsOthers(s, s1, a.user, r.value, others);
      } else {
        others := SomeOthers(s, a.user, CurrentDevice(found, drawn));
      }
      LoginOutcome(authCache.cfg, s, a, found, drawn, others);
    }

    function ClientIdOf(s: AuthDb, a: Attempt, found: Option<Uuid>, drawn: Drawn): string {
      if found.Some? && found.value in s.devices then s.devices[found.value].clientId else NewClientId(a, drawn)
    }

    /** The counters are reset whether or not the device row can be saved. */
    method RegisterDevice(a: Attempt, found: Option<Uuid>, drawn: Drawn) returns (r: Result<Uuid>)
      requires a.user in db.users
      requires found.Some? ==> found.value in db.devices && db.devices[found.value].user == a.user
      modifies db
      ensures
        var s := old(Snapshot(db, authCache));
        && db.now == s.now
        && if found.None? && SameClient(s, a.user, NewClientId(a, drawn)) != {} then
             r == Err(ServerError) && Snapshot(db, authCache) == Unlocked(s, a.user)
           else
             && r == Ok(CurrentDevice(found, drawn))
             && Snapshot(db, authCache) == SignIn(s, a, r.value, ClientIdOf(s, a, found, drawn))
             && db.devices.Keys == s.devices.Keys + {r.value}
             && forall d | d in s.devices && d != r.value :: db.devices[d] == s.devices[d]
    {
      hide SameClient, NewClientId;
      ghost var s := Snapshot(db, authCache);
      db.users := db.users[a.user := db.users[a.user].(failCount := 0, lockedUntil := None)];
      SameClientRows(s, Snapshot(db, authCache), a.user, NewClientId(a, drawn));
      r := SaveDevice(a, found, drawn);
    }

    /** The cases of a login with the right password. */
    lemma LoginOutcome(cfg: AuthSettings, s: AuthDb, a: Attempt, found: Option<Uuid>, drawn: Drawn, others: seq<Uuid>)
      requires ChecksPassword(s, a) && a.passwordOk && (found.Some? ==> found.value in s.devices)
      ensures AuthSpec.Login(cfg, s, a, found, drawn, others) ==
                if found.None? && SameClient(s, a.user, NewClientId(a, drawn)) != {} then
                  (Unlocked(s, a.user), Err(ServerError))
                else
                  var current := CurrentDevice(found, drawn);
                  (EvictAll(SignIn(s, a, current, ClientIdOf(s, a, found, drawn)), a.user, Evicted(cfg, others)), Ok(current))
    {
      hide Evicted, EvictAll, SignIn, SameClient, NewClientId, ChecksPassword;
    }

    lemma SameClientRows(s: AuthDb, s1: AuthDb, u: Uuid, clientId: string)
      requires s1.devices == s.devices
      ensures SameClient(s1, u, clientId) == SameClient(s, u, clientId)
    {
    }

    /** `drawn` are the UUIDs the server draws if it needs them. */
    method Login(a: Attempt, drawn: Drawn) returns (r: Result<Uuid>, ghost reused: Option<Uuid>, ghost others: seq<Uuid>)
      requires DrawsFresh(Snapshot(db, authCache), a, drawn)
      modifies db, authCache
      ensures AuPerforms(authCache.cfg, old(Snapshot(db, authCache)), AuLogin(a, reused, drawn, others), Snapshot(db, authCache))
      ensures r == AuthSpec.Login(authCache.cfg, old(Snapshot(db, authCache)), a, reused, drawn, others).1
    {
      hide Page, Evicted, EvictAll, DrawsFresh, OthersKey, AuthSpec.CountFailure;
      ghost var s := Snapshot(db, authCache);
      var found := FindDevice(a);
      reused := found;
      others := SomeOthers(s, a.user, CurrentDevice(reused, drawn));
      if a.user !in db.users {
        return Err(Unauthorized), reused, others;
      }
      var user := db.users[a.user];
      if user.lockedUntil.Some? && user.lockedUntil.value > db.now {
        return Err(Unauthorized), reused, others;
      }
      if user.status != Active || user.deletedAt.Some? {
        return Err(Unauthorized), reused, others;
      }
      if !a.passwordOk {
        CountFailure(a.user);
        return Err(Unauthorized), reused, others;
      }
      r, others := AdmitDevice(a, found, drawn);
    }

    /** The other devices are the same rows before and after the current one is saved. */
    lemma SavingKeepsOthers(s: AuthDb, s1: AuthDb, u: Uuid, current: Uuid, others: seq<Uuid>)
      requires s1.devices.Keys == s.devices.Keys + {current}
      requires forall d | d in s.devices && d != current :: s1.devices[d] == s.devices[d]
      requires Page(others, OthersKey(s1, u, current), |s1.devices|)
      ensures Page(others, OthersKey(s, u, current), |s.devices|)
    {
      SameOthersKey(s, s1, u, current);
      hide OthersKey, Page;
      var key := OthersKey(s, u, current);
      assert |key| == |key.Keys| && |s.devices| == |s.devices.Keys| && |s1.devices| == |s1.devices.Keys|;
      PageOfAll(others, key, |s1.devices|, |s.devices|);
    }

    lemma SameOthersKey(s: AuthDb, s1: AuthDb, u: Uuid, current: Uuid)
      requires s1.devices.Keys == s.devices.Keys + {current}
      requires forall d | d in s.devices && d != current :: s1.devices[d] == s.devices[d]
      ensures OthersKey(s1, u, current) == OthersKey(s, u, current)
      ensures |OthersKey(s, u, current).Keys| <= |s.devices.Keys| <= |s1.devices.Keys|
    {
      SubsetSize(s.devices.Keys, s1.devices.Keys);
      OthersExist(s, u, current);
      forall d: Uuid
        ensures d in OthersKey(s1, u, current) <==> d in OthersKey(s, u, current)
        ensures d in OthersKey(s, u, current) ==> OthersKey(s1, u, current)[d] == OthersKey(s, u, current)[d]
      {
        OtherDevice(s, u, current, d);
        OtherDevice(s1, u, current, d);
      }
      hide OthersKey;
      SameMap(OthersKey(s1, u, current), OthersKey(s, u, current));
    }

    lemma OtherDevice(s: AuthDb, u: Uuid, current: Uuid, d: Uuid)
      ensures d in OthersKey(s, u, current) <==> d != current && d in s.devices && s.devices[d].user == u
      ensures d in OthersKey(s, u, current) ==> OthersKey(s, u, current)[d] == -ActiveRank(s.devices[d])
    {
    }

    lemma SameMap<K, V>(m: map<K, V>, n: map<K, V>)
      requires forall k :: (k in m <==> k in n) && (k in m ==> m[k] == n[k])
      ensures m == n
    {
    }

    lemma OthersExist(s: AuthDb, u: Uuid, current: Uuid)
      ensures |OthersKey(s, u, current).Keys| <= |s.devices.Keys|
      ensures forall d | d in s.DevicesOf(u) :: d in s.devices
    {
      SubsetSize(OthersKey(s, u, current).Keys, s.devices.Keys);
    }

    lemma PageOfAll(rows: seq<Uuid>, key: map<Uuid, int>, m: nat, n: nat)
      requires Page(rows, key, m) && |key| <= m && |key| <= n
      ensures Page(rows, key, n)
    {
    }

    method ChangePassword(u: Uuid, oldOk: bool) returns (r: Result<Uuid>)
      modifies db, authCache
      ensures AuPerforms(authCache.cfg, old(Snapshot(db, authCache)), AuChangePassword(u, oldOk), Snapshot(db, authCache))
      ensures r == if u !in old(db.users) then Err(NotFound) else if !oldOk then Err(BadRequest) else Ok(u)
    {
      if u !in db.users {
        return Err(NotFound);
      }
      if !oldOk {
        return Err(BadRequest);
      }
      db.users := db.users[u := db.users[u].(forceChangePwd := false)];
      var removed := authCache.Invalidate(u, "");
      return Ok(u);
    }

    method RemoveDevice(u: Uuid, d: Uuid)
      modifies db, authCache
      ensures AuPerforms(authCache.cfg, old(Snapshot(db, authCache)), AuRemoveDevice(u, d), Snapshot(db, authCache))
    {
      if d in db.devices && db.devices[d].user == u {
        db.devices := db.devices - {d};
      }
      var removed := authCache.Invalidate(u, d);
    }

    method Heartbeat(u: Uuid, d: Uuid) returns (r: Result<Millis>)
      modifies db
      ensures AuPerforms(authCache.cfg, old(Snapshot(db, authCache)), AuHeartbeat(u, d), Snapshot(db, authCache))
      ensures r == if d in old(Snapshot(db, authCache)).DevicesOf(u) then Ok(old(db.now)) else Err(NotFound)
    {
      if d !in db.devices || db.devices[d].user != u {
        return Err(NotFound);
      }
      db.devices := db.devices[d := db.devices[d].(lastActive := Some(db.now))];
      return Ok(db.now);
    }
  }

  class AccountService {
    const db: AccountTables
    const authCache: AuthCacheService

    constructor (db: AccountTables, authCache: AuthCacheService)
      ensures this.db == db && this.authCache == authCache
    {
      this.db, this.authCache := db, authCache;
    }

    /** `u` is the UUID the insert draws. */
    method CreateAccount(u: Uuid, phone: string) returns (r: Result<Uuid>)
      requires u !in db.users
      modifies db
      ensures AuPerforms(authCache.cfg, old(Snapshot(db, authCache)), AuCreateAccount(u, phone), Snapshot(db, authCache))
      ensures r == if exists v | v in old(db.users) :: old(db.users)[v].phone == phone then Err(Conflict) else Ok(u)
    {
      var existing := set v | v in db.users && db.users[v].phone == phone;
      if existing != {} {
        var v :| v in existing;
        return Err(Conflict);
      }
      assert forall v | v in db.users :: v !in existing;
      db.users := db.users[u := User(phone, UserRole, Active, true, None, 0, None)];
      return Ok(u);
    }

    method ResetPassword(u: Uuid) returns (r: Result<Uuid>)
      modifies db, authCache
      ensures AuPerforms(authCache.cfg, old(Snapshot(db, authCache)), AuResetPassword(u), Snapshot(db, authCache))
      ensures r == if u in old(db.users) then Ok(u) else Err(NotFound)
    {
      if u !in db.users {
        return Err(NotFound);
      }
      db.users := db.users[u := db.users[u].(forceChangePwd := true)];
      var removed := authCache.Invalidate(u, "");
      return Ok(u);
    }

    method DeleteDevicesOf(u: Uuid)
      modifies db`devices
      ensures db.devices == DropDevicesOf(old(Snapshot(db, authCache)), u)
    {
      db.devices := map d | d in db.devices && db.devices[d].user != u :: db.devices[d];
    }

    method ToggleAccountStatus(u: Uuid, status: Status) returns (r: Result<Uuid>)
      modifies db, authCache
      ensures AuPerforms(authCache.cfg, old(Snapshot(db, authCache)), AuToggleStatus(u, status), Snapshot(db, authCache))
      ensures r == Err(NotFound) <==> u !in old(db.users)
      ensures r == Ok(u) <==> u in old(db.users) && old(db.users)[u].deletedAt.None?
      ensures r == Ok(u) || r == Err(NotFound) || r == Err(BadRequest)
    {
      if u !in db.users {
        return Err(NotFound);
      }
      if db.users[u].deletedAt.Some? {
        return Err(BadRequest);
      }
      db.users := db.users[u := db.users[u].(status := status)];
      if status == Disabled {
        DeleteDevicesOf(u);
      }
      var removed := authCache.Invalidate(u, "");
      return Ok(u);
    }

    method SoftDeleteAccount(u: Uuid, operator: Uuid) returns (r: Result<Uuid>)
      modifies db, authCache
      ensures AuPerforms(authCache.cfg, old(Snapshot(db, authCache)), AuSoftDelete(u, operator), Snapshot(db, authCache))
      ensures r == Err(NotFound) <==> u !in old(db.users) || old(db.users)[u].deletedAt.Some?
      ensures r == Ok(u) <==> u in old(db.users) && old(db.users)[u].deletedAt.None? && u != operator && old(db.users)[u].role == UserRole
      ensures r == Ok(u) || r == Err(NotFound) || r == Err(BadRequest)
    {
      if u !in db.users || db.users[u].deletedAt.Some? {
        return Err(NotFound);
      }
      if u == operator {
        return Err(BadRequest);
      }
      if db.users[u].role == AdminRole {
        return Err(BadRequest);
      }
      db.users := db.users[u := db.users[u].(deletedAt := Some(db.now), status := Disabled)];
      DeleteDevicesOf(u);
      var removed := authCache.Invalidate(u, "");
      return Ok(u);
    }

    /** The administrator's kick, which does not know the cache. */
    method ForceOfflineDevice(d: Uuid) returns (r: Result<Uuid>)
      modifies db
      ensures AuPerforms(authCache.cfg, old(Snapshot(db, authCache)), AuForceOffline(d), Snapshot(db, authCache))
      ensures r == if d in old(db.devices) then Ok(old(db.devices)[d].user) else Err(NotFound)
    {
      if d !in db.devices {
        assert db.devices - {d} == db.devices;
        return Err(NotFound);
      }
      var owner := db.devices[d].user;
      db.devices := db.devices - {d};
      return Ok(owner);
    }
  }
}
