/** Accounts, devices and the in-memory authorisation cache, and what each request does to them. */
module AuthSpec {
  import opened Prelude
  import opened Query

  type Millis = nat

  /** A UUID: never empty, and without the colon that separates the parts of a cache key. */
  type Uuid = s: string | s != "" && ':' !in s witness "0"

  const MAX_LOGIN_FAILS: nat := 5
  const LOCK_MS: nat := 15 * 60 * 1000

  datatype Role = UserRole | AdminRole
  datatype Status = Active | Disabled

  datatype User = User(
    phone: string,
    role: Role,
    status: Status,
    forceChangePwd: bool,
    deletedAt: Option<Millis>,
    failCount: nat,
    lockedUntil: Option<Millis>)
  {
    predicate Usable() {
      status == Active && deletedAt.None?
    }
  }

  datatype Device = Device(user: Uuid, clientId: string, lastActive: Option<Millis>)

  /** The columns the guard reads, as the cache keeps them. */
  datatype AuthUser = AuthUser(id: Uuid, phone: string, role: Role, status: Status, forceChangePwd: bool,
                               deletedAt: Option<Millis>)
  datatype AuthDevice = AuthDevice(id: Uuid, user: Uuid)
  datatype Context = Context(user: AuthUser, device: AuthDevice)
  datatype Entry = Entry(context: Context, cachedAt: Millis)

  type Cache = map<string, Entry>

  datatype SessionPolicy = Allow | Notify | Single

  datatype AuthSettings = AuthSettings(
    cacheTtlMs: int,          // AUTH_CACHE_TTL_MS
    policy: SessionPolicy,    // SESSION_POLICY
    maxDevices: int)          // MAX_DEVICES_PER_USER

  datatype AuthDb = AuthDb(now: Millis, users: map<Uuid, User>, devices: map<Uuid, Device>, cache: Cache)
  {
    function DevicesOf(u: Uuid): set<Uuid> {
      set d | d in devices && devices[d].user == u
    }
  }

  // ----- auth-cache.service.ts -----

  function Key(u: string, d: string): string {
    u + ":" + d
  }

  predicate StartsWith(s: string, prefix: string) {
    |prefix| <= |s| && s[..|prefix|] == prefix
  }

  predicate Stale(cfg: AuthSettings, e: Entry, now: Millis) {
    now - e.cachedAt > cfg.cacheTtlMs
  }

  /** A read deletes the entry it finds expired. */
  function CacheGet(cfg: AuthSettings, cache: Cache, now: Millis, u: string, d: string): (Cache, Option<Context>) {
    if cfg.cacheTtlMs <= 0 || Key(u, d) !in cache then
      (cache, None)
    else if Stale(cfg, cache[Key(u, d)], now) then
      (cache - {Key(u, d)}, None)
    else
      (cache, Some(cache[Key(u, d)].context))
  }

  function CacheSet(cfg: AuthSettings, cache: Cache, now: Millis, u: string, d: string, c: Context): Cache {
    if cfg.cacheTtlMs <= 0 then cache else cache[Key(u, d) := Entry(c, now)]
  }

  /** Absent arguments are empty strings: one device, one user, or everything. */
  function Invalidate(cache: Cache, u: string, d: string): Cache {
    if u != "" && d != "" then
      cache - {Key(u, d)}
    else if u != "" then
      map k | k in cache && !StartsWith(k, u + ":") :: cache[k]
    else
      map[]
  }

  // ----- jwt-auth.guard.ts -----

  datatype Decision = Admit(context: Context) | Deny(error: HttpError)

  /** What the two queries of the guard find. */
  function Lookup(s: AuthDb, u: Uuid, d: Uuid): Option<Context> {
    if u !in s.users || !s.users[u].Usable() then
      None
    else if d !in s.devices || s.devices[d].user != u then
      None
    else
      var r := s.users[u];
      Some(Context(AuthUser(u, r.phone, r.role, r.status, r.forceChangePwd, r.deletedAt), AuthDevice(d, u)))
  }

  /** `exempt` says the route is on the forced-password-change whitelist. */
  function Decide(c: Option<Context>, exempt: bool): Decision {
    if c.None? then Deny(Unauthorized)
    else if c.value.user.forceChangePwd && !exempt then Deny(Forbidden)
    else Admit(c.value)
  }

  /** The guard as it would be without a cache. */
  function CachelessGuard(s: AuthDb, u: Uuid, d: Uuid, exempt: bool): Decision {
    Decide(Lookup(s, u, d), exempt)
  }

  /** The guard; `(u, d)` is the payload of a token whose signature is valid. */
  function Guard(cfg: AuthSettings, s: AuthDb, u: Uuid, d: Uuid, exempt: bool): (AuthDb, Decision) {
    var (cache, hit) := CacheGet(cfg, s.cache, s.now, u, d);
    if hit.Some? then
      (s.(cache := cache), Decide(hit, exempt))
    else
      var found := Lookup(s, u, d);
      (s.(cache := if found.Some? then CacheSet(cfg, cache, s.now, u, d, found.value) else cache), Decide(found, exempt))
  }

  // ----- auth.service.ts: login -----

  datatype Attempt = Attempt(user: Uuid, passwordOk: bool, clientId: Option<string>)

  predicate Locked(r: User, now: Millis) {
    r.lockedUntil.Some? && r.lockedUntil.value > now
  }

  /** The attempt gets as far as checking the password. */
  predicate ChecksPassword(s: AuthDb, a: Attempt) {
    a.user in s.users && !Locked(s.users[a.user], s.now) && s.users[a.user].Usable()
  }

  function CountFailure(r: User, now: Millis): User {
    if r.failCount + 1 >= MAX_LOGIN_FAILS then r.(failCount := 0, lockedUntil := Some(now + LOCK_MS))
    else r.(failCount := r.failCount + 1)
  }

  /** The user's device rows with this client id; the unique index keeps it to at most one. */
  function SameClient(s: AuthDb, u: Uuid, clientId: string): set<Uuid> {
    set d | d in s.devices && s.devices[d].user == u && s.devices[d].clientId == clientId
  }

  predicate Given(clientId: Option<string>) {
    clientId.Some? && clientId.value != ""
  }

  /** The row a login reuses, if any. */
  function Reused(s: AuthDb, a: Attempt): set<Uuid> {
    if Given(a.clientId) then SameClient(s, a.user, a.clientId.value) else {}
  }

  /** The UUIDs the server would draw for a new row and for a missing client id. */
  datatype Drawn = Drawn(device: Uuid, clientId: Uuid)

  function NewClientId(a: Attempt, drawn: Drawn): string {
    if a.clientId.Some? then a.clientId.value else drawn.clientId
  }

  /** NULLs are last in the descending order. */
  function ActiveRank(d: Device): int {
    if d.lastActive.Some? then d.lastActive.value else -1
  }

  function OthersKey(s: AuthDb, u: Uuid, current: Uuid): map<Uuid, int> {
    map d | d in s.DevicesOf(u) && d != current :: -ActiveRank(s.devices[d])
  }

  /** The devices the session policy evicts; `others` are the user's other devices, most recent first. */
  function Evicted(cfg: AuthSettings, others: seq<Uuid>): seq<Uuid> {
    if cfg.policy == Single && others != [] then
      others
    else if cfg.maxDevices > 0 && |others| + 1 > cfg.maxDevices then
      others[cfg.maxDevices - 1..]
    else
      []
  }

  function EvictAll(s: AuthDb, u: Uuid, gone: seq<Uuid>): AuthDb {
    if gone == [] then
      s
    else
      var n := |gone| - 1;
      var rest := EvictAll(s, u, gone[..n]);
      rest.(devices := rest.devices - {gone[n]}, cache := Invalidate(rest.cache, u, gone[n]))
  }

  /** The counters after a correct password. */
  function Unlocked(s: AuthDb, u: Uuid): AuthDb
    requires u in s.users
  {
    s.(users := s.users[u := s.users[u].(failCount := 0, lockedUntil := None)])
  }

  function SaveDevice(s: AuthDb, d: Uuid, row: Device): AuthDb {
    s.(devices := s.devices[d := row])
  }

  /** The login found or created device `current`; then the session policy runs. */
  function SignIn(s: AuthDb, a: Attempt, current: Uuid, clientId: string): AuthDb
    requires a.user in s.users
  {
    SaveDevice(Unlocked(s, a.user), current, Device(a.user, clientId, Some(s.now)))
  }

  /**
   * `reused` is the row the lookup returned, if it returned one. An empty client id is stored
   * as it is, so a second row with one runs into the unique index after the counters were reset.
   */
  function Login(cfg: AuthSettings, s: AuthDb, a: Attempt, reused: Option<Uuid>, drawn: Drawn, others: seq<Uuid>)
    : (AuthDb, Result<Uuid>)
  {
    if !ChecksPassword(s, a) then
      (s, Err(Unauthorized))
    else if !a.passwordOk then
      (s.(users := s.users[a.user := CountFailure(s.users[a.user], s.now)]), Err(Unauthorized))
    else if reused.Some? && reused.value in s.devices then
      (EvictAll(SignIn(s, a, reused.value, s.devices[reused.value].clientId), a.user, Evicted(cfg, others)), Ok(reused.value))
    else if SameClient(s, a.user, NewClientId(a, drawn)) != {} then
      (Unlocked(s, a.user), Err(ServerError))
    else
      (EvictAll(SignIn(s, a, drawn.device, NewClientId(a, drawn)), a.user, Evicted(cfg, others)), Ok(drawn.device))
  }

  // ----- the other writes -----

  function ChangePassword(s: AuthDb, u: Uuid, oldOk: bool): AuthDb {
    if u !in s.users || !oldOk then s
    else s.(users := s.users[u := s.users[u].(forceChangePwd := false)], cache := Invalidate(s.cache, u, ""))
  }

  function ResetPassword(s: AuthDb, u: Uuid): AuthDb {
    if u !in s.users then s
    else s.(users := s.users[u := s.users[u].(forceChangePwd := true)], cache := Invalidate(s.cache, u, ""))
  }

  function DropDevicesOf(s: AuthDb, u: Uuid): map<Uuid, Device> {
    map d | d in s.devices && s.devices[d].user != u :: s.devices[d]
  }

  function ToggleStatus(s: AuthDb, u: Uuid, status: Status): AuthDb {
    if u !in s.users || s.users[u].deletedAt.Some? then
      s
    else
      s.(users := s.users[u := s.users[u].(status := status)],
         devices := if status == Disabled then DropDevicesOf(s, u) else s.devices,
         cache := Invalidate(s.cache, u, ""))
  }

  function SoftDelete(s: AuthDb, u: Uuid, operator: Uuid): AuthDb {
    if u !in s.users || s.users[u].deletedAt.Some? || u == operator || s.users[u].role == AdminRole then
      s
    else
      s.(users := s.users[u := s.users[u].(deletedAt := Some(s.now), status := Disabled)],
         devices := DropDevicesOf(s, u),
         cache := Invalidate(s.cache, u, ""))
  }

  function RemoveDevice(s: AuthDb, u: Uuid, d: Uuid): AuthDb {
    s.(devices := if d in s.devices && s.devices[d].user == u then s.devices - {d} else s.devices,
       cache := Invalidate(s.cache, u, d))
  }

  function Heartbeat(s: AuthDb, u: Uuid, d: Uuid): AuthDb {
    if d in s.devices && s.devices[d].user == u then
      s.(devices := s.devices[d := s.devices[d].(lastActive := Some(s.now))])
    else
      s
  }

  /** The administrator's kick deletes the row and leaves the cache alone. */
  function ForceOffline(s: AuthDb, d: Uuid): AuthDb {
    s.(devices := s.devices - {d})
  }

  /** `u` is the fresh UUID; the initial password must be changed. */
  function CreateAccount(s: AuthDb, u: Uuid, phone: string): AuthDb {
    if exists v | v in s.users :: s.users[v].phone == phone then s
    else s.(users := s.users[u := User(phone, UserRole, Active, true, None, 0, None)])
  }

  // ----- runs -----

  datatype AuthOp =
    | AuElapse(dt: nat)
    | AuGuard(user: Uuid, device: Uuid, exempt: bool)
    | AuLogin(attempt: Attempt, reused: Option<Uuid>, drawn: Drawn, others: seq<Uuid>)
    | AuChangePassword(user: Uuid, oldOk: bool)
    | AuResetPassword(user: Uuid)
    | AuToggleStatus(user: Uuid, status: Status)
    | AuSoftDelete(user: Uuid, operator: Uuid)
    | AuRemoveDevice(user: Uuid, device: Uuid)
    | AuHeartbeat(user: Uuid, device: Uuid)
    | AuForceOffline(device: Uuid)
    | AuCreateAccount(user: Uuid, phone: string)

  predicate DrawsFresh(s: AuthDb, a: Attempt, drawn: Drawn) {
    && drawn.device !in s.devices
    && (forall u | u in s.users :: Key(u, drawn.device) !in s.cache)
    && SameClient(s, a.user, drawn.clientId) == {}
  }

  function CurrentDevice(reused: Option<Uuid>, drawn: Drawn): Uuid {
    if reused.Some? then reused.value else drawn.device
  }

  ghost predicate LoginEnabled(s: AuthDb, a: Attempt, reused: Option<Uuid>, drawn: Drawn, others: seq<Uuid>) {
    && DrawsFresh(s, a, drawn)
    && (if Reused(s, a) == {} then reused.None? else reused.Some? && reused.value in Reused(s, a))
    && Page(others, OthersKey(s, a.user, CurrentDevice(reused, drawn)), |s.devices|)
  }

  ghost predicate AuEnabled(s: AuthDb, op: AuthOp) {
    match op
    case AuLogin(a, reused, drawn, others) => LoginEnabled(s, a, reused, drawn, others)
    case AuCreateAccount(u, _) => u !in s.users
    case _ => true
  }

  function AuStep(cfg: AuthSettings, s: AuthDb, op: AuthOp): AuthDb {
    match op
    case AuElapse(dt) => s.(now := s.now + dt)
    case AuGuard(u, d, exempt) => Guard(cfg, s, u, d, exempt).0
    case AuLogin(a, reused, drawn, others) => Login(cfg, s, a, reused, drawn, others).0
    case AuChangePassword(u, oldOk) => ChangePassword(s, u, oldOk)
    case AuResetPassword(u) => ResetPassword(s, u)
    case AuToggleStatus(u, status) => ToggleStatus(s, u, status)
    case AuSoftDelete(u, operator) => SoftDelete(s, u, operator)
    case AuRemoveDevice(u, d) => RemoveDevice(s, u, d)
    case AuHeartbeat(u, d) => Heartbeat(s, u, d)
    case AuForceOffline(d) => ForceOffline(s, d)
    case AuCreateAccount(u, phone) => CreateAccount(s, u, phone)
  }

  /** From `s`, a request that performs `op` got to `s'`: it is a step of the run model. */
  ghost predicate AuPerforms(cfg: AuthSettings, s: AuthDb, op: AuthOp, s': AuthDb) {
    AuEnabled(s, op) && s' == AuStep(cfg, s, op)
  }

  /** Runs grow at the end, so that every prefix of a run is one of its moments. */
  function AuExec(cfg: AuthSettings, s: AuthDb, ops: seq<AuthOp>): AuthDb {
    if ops == [] then s else AuStep(cfg, AuExec(cfg, s, ops[..|ops| - 1]), ops[|ops| - 1])
  }

  ghost predicate AuRun(cfg: AuthSettings, s: AuthDb, ops: seq<AuthOp>) {
    ops != [] ==>
      && AuRun(cfg, s, ops[..|ops| - 1])
      && AuEnabled(AuExec(cfg, s, ops[..|ops| - 1]), ops[|ops| - 1])
  }

  /** The server has just started: whatever is in the tables, the cache is empty. */
  ghost predicate Booted(s: AuthDb) {
    && s.cache == map[]
    && (forall d | d in s.devices :: s.devices[d].user in s.users)
    && (forall u | u in s.users :: s.users[u].failCount < MAX_LOGIN_FAILS)
    && UniqueClients(s)
  }

  /** The unique index on (user, client id). */
  ghost predicate UniqueClients(s: AuthDb) {
    forall d, e | d in s.devices && e in s.devices && s.devices[d].user == s.devices[e].user
                  && s.devices[d].clientId == s.devices[e].clientId :: d == e
  }
}
