/**
 * Socket counting at the level of single UPDATE statements. A connection and its disconnection
 * each issue two statements; the statements of different sockets, and the two of one
 * disconnection, interleave freely.
 */
module PresenceSpec {
  import opened Prelude
  import opened Query

  type DeviceId = nat
  type SocketId = nat
  type UserId = nat
  type Millis = nat

  const STALE_BATCH: nat := 500

  datatype Device = Device(user: UserId, count: int, online: bool, lastActive: Option<Millis>)

  /** How far handleConnection has got: the await points between its statements. */
  datatype Handshake = Pending | Authed | Counted | Ready | Rejected

  /** An UPDATE nobody awaits; `took` records whether it changed the row. */
  datatype Update = NotIssued | Issued(at: Millis) | Ran(took: bool)

  datatype Socket = Socket(device: DeviceId, step: Handshake, closed: bool, down: Update, offline: Update)
  {
    predicate Authenticated() {
      step == Authed || step == Counted || step == Ready
    }

    /** Its increment has run. */
    predicate Up() {
      step == Counted || step == Ready
    }
  }

  datatype State = State(now: Millis, devices: map<DeviceId, Device>, sockets: map<SocketId, Socket>)

  function WithDevice(s: State, d: DeviceId, row: Device): State {
    if d in s.devices then s.(devices := s.devices[d := row]) else s
  }

  function WithSocket(s: State, k: SocketId, socket: Socket): State {
    s.(sockets := s.sockets[k := socket])
  }

  // ----- handleConnection -----

  function Connect(s: State, k: SocketId, d: DeviceId): State {
    WithSocket(s, k, Socket(d, Pending, false, NotIssued, NotIssued))
  }

  /** `ok`: the token and the account check out. A socket that was closed meanwhile goes on all the same. */
  function Authenticate(s: State, k: SocketId, ok: bool): State
    requires k in s.sockets
  {
    var c := s.sockets[k];
    WithSocket(s, k, c.(step := if ok && c.device in s.devices then Authed else Rejected))
  }

  function CountUp(s: State, k: SocketId): State
    requires k in s.sockets
  {
    var c := s.sockets[k];
    var s1 := WithSocket(s, k, c.(step := Counted));
    if c.device in s.devices then
      WithDevice(s1, c.device, s.devices[c.device].(count := s.devices[c.device].count + 1))
    else
      s1
  }

  function GoOnline(s: State, k: SocketId): State
    requires k in s.sockets
  {
    var c := s.sockets[k];
    var s1 := WithSocket(s, k, c.(step := Ready));
    if c.device in s.devices then
      WithDevice(s1, c.device, s.devices[c.device].(online := true, lastActive := Some(s.now)))
    else
      s1
  }

  // ----- handleDisconnect -----

  /** Before the handshake has set the device id there is nothing to undo. */
  function HandleDisconnect(s: State, k: SocketId): State
    requires k in s.sockets
  {
    var c := s.sockets[k];
    WithSocket(s, k, if c.Authenticated() then c.(closed := true, down := Issued(s.now), offline := Issued(s.now))
                     else c.(closed := true))
  }

  /** `GREATEST(socket_count - 1, 0)`. */
  function CountDown(s: State, k: SocketId): State
    requires k in s.sockets && s.sockets[k].down.Issued?
  {
    var c := s.sockets[k];
    if c.device in s.devices then
      var row := s.devices[c.device];
      WithDevice(WithSocket(s, k, c.(down := Ran(row.count > 0))), c.device,
                 row.(count := Max(row.count - 1, 0), lastActive := Some(c.down.at)))
    else
      WithSocket(s, k, c.(down := Ran(false)))
  }

  function GoOffline(s: State, k: SocketId): State
    requires k in s.sockets && s.sockets[k].offline.Issued?
  {
    var c := s.sockets[k];
    if c.device in s.devices && s.devices[c.device].count == 0 && s.devices[c.device].online then
      WithDevice(WithSocket(s, k, c.(offline := Ran(true))), c.device, s.devices[c.device].(online := false))
    else
      WithSocket(s, k, c.(offline := Ran(false)))
  }

  // ----- device rows, heartbeat, sweep -----

  function AddDevice(s: State, d: DeviceId, u: UserId): State {
    s.(devices := s.devices[d := Device(u, 0, true, Some(s.now))])
  }

  function RemoveDevice(s: State, d: DeviceId): State {
    s.(devices := s.devices - {d})
  }

  /** A heartbeat; a login that reuses the device row writes the same columns. */
  function Heartbeat(s: State, d: DeviceId): State {
    if d in s.devices then WithDevice(s, d, s.devices[d].(online := true, lastActive := Some(s.now))) else s
  }

  predicate StaleDevice(row: Device, cutoff: int) {
    row.online && row.count <= 0 && (row.lastActive.None? || row.lastActive.value < cutoff)
  }

  /** No ORDER BY: every order of the rows is possible. */
  function StaleKey(s: State, ttlMs: nat): map<DeviceId, int> {
    map d | d in s.devices && StaleDevice(s.devices[d], s.now - ttlMs) :: 0
  }

  function SweepOffline(s: State, rows: seq<DeviceId>): State {
    s.(devices := map d | d in s.devices :: if d in rows then s.devices[d].(online := false) else s.devices[d])
  }

  // ----- runs -----

  datatype PresenceOp =
    | Elapses(dt: nat)
    | Connects(socket: SocketId, device: DeviceId)
    | Authenticates(socket: SocketId, ok: bool)
    | CountsUp(socket: SocketId)
    | GoesOnline(socket: SocketId)
    | Disconnects(socket: SocketId)
    | CountsDown(socket: SocketId)
    | GoesOffline(socket: SocketId)
    | AddsDevice(device: DeviceId, user: UserId)
    | RemovesDevice(device: DeviceId)
    | Heartbeats(device: DeviceId)
    | Sweeps(ttlMs: nat, rows: seq<DeviceId>)

  ghost predicate Possible(s: State, op: PresenceOp) {
    match op
    case Connects(k, _) => k !in s.sockets
    case Authenticates(k, _) => k in s.sockets && s.sockets[k].step == Pending
    case CountsUp(k) => k in s.sockets && s.sockets[k].step == Authed
    case GoesOnline(k) => k in s.sockets && s.sockets[k].step == Counted
    case Disconnects(k) => k in s.sockets && !s.sockets[k].closed
    case CountsDown(k) => k in s.sockets && s.sockets[k].down.Issued?
    case GoesOffline(k) => k in s.sockets && s.sockets[k].offline.Issued?
    case AddsDevice(d, _) => d !in s.devices && forall k | k in s.sockets :: s.sockets[k].device != d
    case Sweeps(ttlMs, rows) => Page(rows, StaleKey(s, ttlMs), STALE_BATCH)
    case _ => true
  }

  function After(s: State, op: PresenceOp): State
    requires Possible(s, op)
  {
    match op
    case Elapses(dt) => s.(now := s.now + dt)
    case Connects(k, d) => Connect(s, k, d)
    case Authenticates(k, ok) => Authenticate(s, k, ok)
    case CountsUp(k) => CountUp(s, k)
    case GoesOnline(k) => GoOnline(s, k)
    case Disconnects(k) => HandleDisconnect(s, k)
    case CountsDown(k) => CountDown(s, k)
    case GoesOffline(k) => GoOffline(s, k)
    case AddsDevice(d, u) => AddDevice(s, d, u)
    case RemovesDevice(d) => RemoveDevice(s, d)
    case Heartbeats(d) => Heartbeat(s, d)
    case Sweeps(_, rows) => SweepOffline(s, rows)
  }

  /** From `s`, the statements and events `ops` happen in this order and end in `s'`. */
  ghost predicate Leads(s: State, ops: seq<PresenceOp>, s': State)
    decreases |ops|
  {
    if ops == [] then s' == s else Possible(s, ops[0]) && Leads(After(s, ops[0]), ops[1..], s')
  }

  /** No socket is open and no device has one. */
  ghost predicate Quiet(s: State) {
    s.sockets == map[] && forall d | d in s.devices :: s.devices[d].count == 0
  }
}
