/** Logins are throttled, devices are capped, and a client id names one device. */
module LoginTheorems {
  import opened Prelude
  import opened Query
  import opened AuthSpec
  import opened AuthTheorems

  // ----- device cap -----

  /** The devices the account would have if nobody were evicted. */
  function WithCurrent(s: AuthDb, u: Uuid, current: Uuid): set<Uuid> {
    s.DevicesOf(u) + {current}
  }

  function Cap(cfg: AuthSettings, n: nat): nat {
    if cfg.policy == Single then Min(n, 1) else if cfg.maxDevices > 0 then Min(n, cfg.maxDevices) else n
  }

  /** Device `a` was active no later than `b`, or never. */
  predicate NoMoreRecent(a: Device, b: Device) {
    a.lastActive.Some? ==> b.lastActive.Some? && a.lastActive.value <= b.lastActive.value
  }

  lemma RankMeans(a: Device, b: Device)
    ensures ActiveRank(a) <= ActiveRank(b) <==> NoMoreRecent(a, b)
  {
  }

  lemma OthersAreTheRest(s: AuthDb, u: Uuid, current: Uuid, others: seq<Uuid>)
    requires Page(others, OthersKey(s, u, current), |s.devices|)
    ensures Ids(others) == s.DevicesOf(u) - {current}
    ensures |WithCurrent(s, u, current)| == |others| + 1
  {
    var key := OthersKey(s, u, current);
    DistinctSize(others);
    SubsetSize(key.Keys, s.devices.Keys);
    ProperSubsetSize(Ids(others), key.Keys);
    assert WithCurrent(s, u, current) == Ids(others) + {current};
  }

  lemma SplitSizes<T>(all: seq<T>, n: nat)
    requires Distinct(all) && n <= |all|
    ensures |Ids(all) - Ids(all[n..])| == n
    ensures forall x | x in all :: x in all[..n] || x in all[n..]
  {
    assert all == all[..n] + all[n..];
    DistinctSize(all[..n]);
    assert Ids(all) - Ids(all[n..]) == Ids(all[..n]);
  }

  /** The policy evicts a tail of the other devices, just long enough to meet the cap. */
  lemma EvictedIsATail(cfg: AuthSettings, others: seq<Uuid>) returns (n: nat)
    ensures n <= |others| && Evicted(cfg, others) == others[n..] && n + 1 == Cap(cfg, |others| + 1)
  {
    n := |others| - |Evicted(cfg, others)|;
  }

  /** A tail of a page holds no smaller keys than its head. */
  lemma TailIsLater<T>(rows: seq<T>, key: map<T, int>, limit: nat, n: nat, d: T, e: T)
    requires Page(rows, key, limit) && n <= |rows|
    requires d in rows[n..] && e in rows && e !in rows[n..]
    ensures key[e] <= key[d]
  {
    var i :| n <= i < |rows| && rows[i] == d;
    assert rows == rows[..n] + rows[n..];
    var j :| 0 <= j < n && rows[j] == e;
  }

  /** How many others stay, and that those who stay are the most recently active. */
  lemma EvictedIsExcess(cfg: AuthSettings, s: AuthDb, u: Uuid, current: Uuid, others: seq<Uuid>)
    requires Page(others, OthersKey(s, u, current), |s.devices|)
    ensures
      var gone := Ids(Evicted(cfg, others));
      && gone <= Ids(others)
      && |Ids(others) - gone| + 1 == Cap(cfg, |others| + 1)
      && (forall d, e | d in gone && e in Ids(others) - gone :: NoMoreRecent(s.devices[d], s.devices[e]))
  {
    var n := EvictedIsATail(cfg, others);
    SplitSizes(others, n);
    var key := OthersKey(s, u, current);
    forall d, e | d in others[n..] && e in others && e !in others[n..]
      ensures NoMoreRecent(s.devices[d], s.devices[e])
    {
      TailIsLater(others, key, |s.devices|, n, d, e);
      assert d in key && e in key;
      RankMeans(s.devices[d], s.devices[e]);
      hide NoMoreRecent;
    }
    hide Page, OthersKey, Evicted, Cap, NoMoreRecent;
  }

  /** What a successful login does: sign the device in, then evict the excess. */
  lemma LoginSignsIn(cfg: AuthSettings, s: AuthDb, a: Attempt, reused: Option<Uuid>, drawn: Drawn, others: seq<Uuid>)
    returns (s1: AuthDb)
    requires LoginEnabled(s, a, reused, drawn, others) && Login(cfg, s, a, reused, drawn, others).1.Ok?
    ensures
      var (s', r) := Login(cfg, s, a, reused, drawn, others);
      && r.value == CurrentDevice(reused, drawn)
      && s' == EvictAll(s1, a.user, Evicted(cfg, others))
      && s1.now == s.now && s1.cache == s.cache
      && s1.devices.Keys == s.devices.Keys + {r.value}
      && (forall d | d in s.devices && d != r.value :: s1.devices[d] == s.devices[d])
      && s1.devices[r.value].user == a.user && s1.devices[r.value].lastActive == Some(s.now)
      && (r.value in s.devices ==> s.devices[r.value].user == a.user)
      && Page(others, OthersKey(s, a.user, r.value), |s.devices|)
  {
    hide Page, OthersKey, Evicted, EvictAll;
    if reused.Some? {
      s1 := SignIn(s, a, reused.value, s.devices[reused.value].clientId);
    } else {
      s1 := SignIn(s, a, drawn.device, NewClientId(a, drawn));
    }
  }

  lemma KeptDevices(s1: AuthDb, s': AuthDb, u: Uuid, current: Uuid, rest: set<Uuid>, gone: set<Uuid>)
    requires s'.devices == s1.devices - gone
    requires s1.DevicesOf(u) == rest + {current} && current !in rest && gone <= rest
    ensures s'.DevicesOf(u) == rest - gone + {current} && |s'.DevicesOf(u)| == |rest - gone| + 1
    ensures forall d | d in rest && d !in s'.devices :: d in gone
    ensures forall v, e | v != u && e in s1.DevicesOf(v) :: e in s'.devices && s'.devices[e] == s1.devices[e]
  {
    forall v, e | v != u && e in s1.DevicesOf(v) ensures e in s'.devices {
      assert e !in s1.DevicesOf(u);
    }
  }

  lemma SignInKeepsOthers(s: AuthDb, s1: AuthDb, u: Uuid, current: Uuid)
    requires s1.devices.Keys == s.devices.Keys + {current}
    requires forall d | d in s.devices && d != current :: s1.devices[d] == s.devices[d]
    requires s1.devices[current].user == u && (current in s.devices ==> s.devices[current].user == u)
    ensures s1.DevicesOf(u) == s.DevicesOf(u) - {current} + {current}
    ensures forall v, e | v != u && e in s.DevicesOf(v) :: e in s1.DevicesOf(v) && s1.devices[e] == s.devices[e]
  {
  }

  /**
   * After every login that signs a device in: the account has min(n, max) devices (one under
   * the single-session policy), the device itself is among them, whoever was evicted was no
   * more recently active than any other device that stayed, and no evicted device can still
   * be admitted from the cache. Other accounts' devices are untouched.
   */
  lemma DeviceCap(cfg: AuthSettings, s: AuthDb, a: Attempt, reused: Option<Uuid>, drawn: Drawn, others: seq<Uuid>)
    requires LoginEnabled(s, a, reused, drawn, others) && Login(cfg, s, a, reused, drawn, others).1.Ok?
    ensures
      var (s', r) := Login(cfg, s, a, reused, drawn, others);
      var u, current := a.user, r.value;
      && |s'.DevicesOf(u)| == Cap(cfg, |WithCurrent(s, u, current)|)
      && current in s'.DevicesOf(u) && s'.DevicesOf(u) <= WithCurrent(s, u, current)
      && s'.devices[current].lastActive == Some(s.now)
      && (forall d, e | d in s.DevicesOf(u) && d !in s'.devices && e in s'.DevicesOf(u) && e != current ::
            NoMoreRecent(s.devices[d], s.devices[e]))
      && (forall d | d in s.DevicesOf(u) && d !in s'.devices :: Key(u, d) !in s'.cache)
      && (forall v, e | v != u && e in s.DevicesOf(v) :: e in s'.devices && s'.devices[e] == s.devices[e])
  {
    var u, s', current := a.user, Login(cfg, s, a, reused, drawn, others).0, CurrentDevice(reused, drawn);
    var s1 := LoginSignsIn(cfg, s, a, reused, drawn, others);
    var gone := Evicted(cfg, others);
    OthersAreTheRest(s, u, current, others);
    EvictedIsExcess(cfg, s, u, current, others);
    EvictAllEffect(s1, u, gone, u, current);
    hide Login, LoginEnabled, Evicted, EvictAll, Page, OthersKey, Cap, NoMoreRecent;
    SignInKeepsOthers(s, s1, u, current);
    hide AuthDb.DevicesOf;
    KeptDevices(s1, s', u, current, Ids(others), Ids(gone));
    EvictedLeaveTheCache(s1, s', u, gone);
  }

  lemma EvictedLeaveTheCache(s1: AuthDb, s': AuthDb, u: Uuid, gone: seq<Uuid>)
    requires s' == EvictAll(s1, u, gone)
    ensures forall d: Uuid | d in Ids(gone) :: Key(u, d) !in s'.cache
  {
    forall d: Uuid | d in Ids(gone) ensures Key(u, d) !in s'.cache {
      EvictAllEffect(s1, u, gone, u, d);
    }
  }

  // ----- one device per client id -----

  lemma FewerDevicesStayUnique(s: AuthDb, s': AuthDb)
    requires UniqueClients(s)
    requires forall d | d in s'.devices :: d in s.devices && s'.devices[d].user == s.devices[d].user
                                           && s'.devices[d].clientId == s.devices[d].clientId
    ensures UniqueClients(s')
  {
  }

  lemma SignInStaysUnique(s: AuthDb, a: Attempt, current: Uuid, clientId: string)
    requires UniqueClients(s) && a.user in s.users
    requires forall d | d in s.devices && s.devices[d].user == a.user && s.devices[d].clientId == clientId :: d == current
    ensures UniqueClients(SignIn(s, a, current, clientId))
  {
  }

  lemma LoginStaysUnique(cfg: AuthSettings, s: AuthDb, a: Attempt, reused: Option<Uuid>, drawn: Drawn, others: seq<Uuid>)
    requires UniqueClients(s) && LoginEnabled(s, a, reused, drawn, others)
    ensures UniqueClients(Login(cfg, s, a, reused, drawn, others).0)
  {
    var s', r := Login(cfg, s, a, reused, drawn, others).0, Login(cfg, s, a, reused, drawn, others).1;
    if r.Ok? {
      var current := CurrentDevice(reused, drawn);
      var clientId := if reused.Some? then s.devices[reused.value].clientId else NewClientId(a, drawn);
      assert SameClient(s, a.user, clientId) <= {current};
      forall d | d in s.devices && s.devices[d].user == a.user && s.devices[d].clientId == clientId ensures d == current {
        assert d in SameClient(s, a.user, clientId);
      }
      SignInStaysUnique(s, a, current, clientId);
      EvictAllEffect(SignIn(s, a, current, clientId), a.user, Evicted(cfg, others), a.user, current);
      assert s' == EvictAll(SignIn(s, a, current, clientId), a.user, Evicted(cfg, others));
      hide SignIn, Evicted, EvictAll, Login, UniqueClients;
      FewerDevicesStayUnique(SignIn(s, a, current, clientId), s');
    }
  }

  lemma StepStaysUnique(cfg: AuthSettings, s: AuthDb, op: AuthOp)
    requires UniqueClients(s) && AuEnabled(s, op)
    ensures UniqueClients(AuStep(cfg, s, op))
  {
    if op.AuLogin? {
      hide UniqueClients, Login;
      LoginStaysUnique(cfg, s, op.attempt, op.reused, op.drawn, op.others);
    } else {
      hide UniqueClients, Invalidate, CacheGet, CacheSet;
      FewerDevicesStayUnique(s, AuStep(cfg, s, op));
    }
  }

  /** In every run a user never has two devices with one client id, although logins race for client ids. */
  lemma {:induction false} RunStaysUnique(cfg: AuthSettings, s0: AuthDb, ops: seq<AuthOp>)
    requires Booted(s0) && AuRun(cfg, s0, ops)
    ensures UniqueClients(AuExec(cfg, s0, ops))
  {
    if ops != [] {
      var n := |ops| - 1;
      RunStaysUnique(cfg, s0, ops[..n]);
      StepStaysUnique(cfg, AuExec(cfg, s0, ops[..n]), ops[n]);
    }
  }

  // ----- lockout -----

  predicate WrongPassword(s: AuthDb, op: AuthOp, u: Uuid) {
    op.AuLogin? && op.attempt.user == u && ChecksPassword(s, op.attempt) && !op.attempt.passwordOk
  }

  predicate RightPassword(s: AuthDb, op: AuthOp, u: Uuid) {
    op.AuLogin? && op.attempt.user == u && ChecksPassword(s, op.attempt) && op.attempt.passwordOk
  }

  /** How many times along a run a wrong password was checked against the account. */
  function WrongPasswords(cfg: AuthSettings, s: AuthDb, ops: seq<AuthOp>, u: Uuid): nat {
    if ops == [] then
      0
    else
      var n := |ops| - 1;
      WrongPasswords(cfg, s, ops[..n], u) + (if WrongPassword(AuExec(cfg, s, ops[..n]), ops[n], u) then 1 else 0)
  }

  predicate NoRightPassword(cfg: AuthSettings, s: AuthDb, ops: seq<AuthOp>, u: Uuid) {
    ops != [] ==>
      var n := |ops| - 1;
      NoRightPassword(cfg, s, ops[..n], u) && !RightPassword(AuExec(cfg, s, ops[..n]), ops[n], u)
  }

  function Fails(s: AuthDb, u: Uuid): nat {
    if u in s.users then s.users[u].failCount else 0
  }

  function LockEnd(s: AuthDb, u: Uuid): Option<Millis> {
    if u in s.users then s.users[u].lockedUntil else None
  }

  lemma EvictAllKeepsUsers(s: AuthDb, u: Uuid, gone: seq<Uuid>)
    ensures EvictAll(s, u, gone).users == s.users && EvictAll(s, u, gone).now == s.now
  {
    EvictAllEffect(s, u, gone, u, u);
  }

  /** Only logins touch the counters: a wrong password counts or locks, a right one resets. */
  lemma StepCounts(cfg: AuthSettings, s: AuthDb, op: AuthOp, u: Uuid)
    requires AuEnabled(s, op)
    ensures
      var s' := AuStep(cfg, s, op);
      && s.now <= s'.now && (op.AuElapse? || s'.now == s.now)
      && if WrongPassword(s, op, u) then
           if Fails(s, u) < 4 then
             Fails(s', u) == Fails(s, u) + 1 && LockEnd(s', u) == LockEnd(s, u)
           else
             Fails(s', u) == 0 && LockEnd(s', u) == Some(s.now + 15 * 60 * 1000)
         else if RightPassword(s, op, u) then
           Fails(s', u) == 0 && LockEnd(s', u) == None
         else
           Fails(s', u) == Fails(s, u) && LockEnd(s', u) == LockEnd(s, u)
  {
    hide AuStep, AuEnabled, Locked, User.Usable;
    if op.AuLogin? {
      LoginCounts(cfg, s, op, u);
    } else {
      OthersCountNothing(cfg, s, op, u);
    }
  }

  lemma OthersCountNothing(cfg: AuthSettings, s: AuthDb, op: AuthOp, u: Uuid)
    requires AuEnabled(s, op) && !op.AuLogin?
    ensures
      var s' := AuStep(cfg, s, op);
      && s.now <= s'.now && (op.AuElapse? || s'.now == s.now)
      && Fails(s', u) == Fails(s, u) && LockEnd(s', u) == LockEnd(s, u)
  {
    hide Invalidate, CacheGet, CacheSet;
  }

  lemma LoginCounts(cfg: AuthSettings, s: AuthDb, op: AuthOp, u: Uuid)
    requires op.AuLogin? && AuEnabled(s, op)
    ensures
      var s' := AuStep(cfg, s, op);
      && s'.now == s.now && s'.users.Keys == s.users.Keys
      && (op.attempt.user != u && u in s.users ==> s'.users[u] == s.users[u])
      && (!ChecksPassword(s, op.attempt) ==> s'.users == s.users)
      && (WrongPassword(s, op, u) ==> s'.users[u] == CountFailure(s.users[u], s.now))
      && (RightPassword(s, op, u) ==> s'.users[u] == s.users[u].(failCount := 0, lockedUntil := None))
  {
    hide Evicted, OthersKey, Page;
    var a, gone := op.attempt, Evicted(cfg, op.others);
    if ChecksPassword(s, a) && a.passwordOk {
      if op.reused.Some? && op.reused.value in s.devices {
        EvictAllKeepsUsers(SignIn(s, a, op.reused.value, s.devices[op.reused.value].clientId), a.user, gone);
      } else {
        EvictAllKeepsUsers(SignIn(s, a, op.drawn.device, NewClientId(a, op.drawn)), a.user, gone);
      }
    }
  }

  /** The stored counter stays in 0..4 over every run. */
  lemma {:induction false} CounterStaysSmall(cfg: AuthSettings, s0: AuthDb, ops: seq<AuthOp>, u: Uuid)
    requires Booted(s0) && AuRun(cfg, s0, ops)
    ensures Fails(AuExec(cfg, s0, ops), u) < MAX_LOGIN_FAILS
  {
    if ops != [] {
      var n := |ops| - 1;
      CounterStaysSmall(cfg, s0, ops[..n], u);
      StepCounts(cfg, AuExec(cfg, s0, ops[..n]), ops[n], u);
    }
  }

  /** Either every wrong password so far is on the counter, or the account was locked since `s`. */
  predicate Throttled(s: AuthDb, s': AuthDb, u: Uuid, wrong: nat) {
    || wrong + Fails(s, u) == Fails(s', u) < MAX_LOGIN_FAILS
    || (wrong + Fails(s, u) <= MAX_LOGIN_FAILS && LockEnd(s', u).Some? && LockEnd(s', u).value >= s.now + LOCK_MS)
  }

  lemma {:induction false} RunIsThrottled(cfg: AuthSettings, s: AuthDb, ops: seq<AuthOp>, u: Uuid)
    requires Fails(s, u) < MAX_LOGIN_FAILS && AuRun(cfg, s, ops) && NoRightPassword(cfg, s, ops, u)
    requires AuExec(cfg, s, ops).now < s.now + LOCK_MS
    ensures Throttled(s, AuExec(cfg, s, ops), u, WrongPasswords(cfg, s, ops, u))
    ensures s.now <= AuExec(cfg, s, ops).now
  {
    if ops != [] {
      var n := |ops| - 1;
      var s1 := AuExec(cfg, s, ops[..n]);
      hide AuStep, AuEnabled, ChecksPassword;
      StepCounts(cfg, s1, ops[n], u);
      RunIsThrottled(cfg, s, ops[..n], u);
      LockBlocks(s1, ops[n], u);
    }
  }

  lemma LockBlocks(s: AuthDb, op: AuthOp, u: Uuid)
    ensures LockEnd(s, u).Some? && LockEnd(s, u).value > s.now ==> !WrongPassword(s, op, u) && !RightPassword(s, op, u)
  {
  }

  /**
   * In any stretch of a run shorter than fifteen minutes in which nobody gets the password
   * right, at most five wrong passwords are checked, less the ones already on the counter.
   */
  lemma LockoutBound(cfg: AuthSettings, s0: AuthDb, before: seq<AuthOp>, ops: seq<AuthOp>, u: Uuid)
    requires Booted(s0) && AuRun(cfg, s0, before)
    requires
      var s := AuExec(cfg, s0, before);
      && AuRun(cfg, s, ops) && NoRightPassword(cfg, s, ops, u)
      && AuExec(cfg, s, ops).now < s.now + 15 * 60 * 1000
    ensures
      var s := AuExec(cfg, s0, before);
      WrongPasswords(cfg, s, ops, u) + Fails(s, u) <= 5
  {
    CounterStaysSmall(cfg, s0, before, u);
    RunIsThrottled(cfg, AuExec(cfg, s0, before), ops, u);
  }

  /** A locked account stays locked until the lock runs out: not even the right password is looked at. */
  lemma {:induction false} LockHolds(cfg: AuthSettings, s: AuthDb, ops: seq<AuthOp>, u: Uuid)
    requires AuRun(cfg, s, ops) && LockEnd(s, u).Some? && AuExec(cfg, s, ops).now < LockEnd(s, u).value
    ensures LockEnd(AuExec(cfg, s, ops), u) == LockEnd(s, u)
    ensures WrongPasswords(cfg, s, ops, u) == 0 && NoRightPassword(cfg, s, ops, u)
  {
    if ops != [] {
      var n := |ops| - 1;
      var s1 := AuExec(cfg, s, ops[..n]);
      hide AuStep, AuEnabled, ChecksPassword;
      StepCounts(cfg, s1, ops[n], u);
      LockHolds(cfg, s, ops[..n], u);
      LockBlocks(s1, ops[n], u);
    }
  }
}
