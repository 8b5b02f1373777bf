/** What socket counts and online flags mean, in every interleaving. */
module PresenceTheorems {
  import opened Prelude
  import opened Query
  import opened PresenceSpec

  // ----- who is counted -----

  /** The sockets of a device whose increment has run. */
  function Ups(s: State, d: DeviceId): set<SocketId> {
    set k | k in s.sockets && s.sockets[k].device == d && s.sockets[k].Up()
  }

  /** The sockets of a device whose decrement has run and took one away. */
  function Downs(s: State, d: DeviceId): set<SocketId> {
    set k | k in s.sockets && s.sockets[k].device == d && s.sockets[k].down == Ran(true)
  }

  /** The sockets of a device whose decrement ran against a zero count. */
  function Clamped(s: State, d: DeviceId): set<SocketId> {
    set k | k in s.sockets && s.sockets[k].device == d && s.sockets[k].down == Ran(false)
  }

  /** The authenticated sockets of a device whose disconnect came before the handshake had set the device id. */
  function Missed(s: State, d: DeviceId): set<SocketId> {
    set k | k in s.sockets && s.sockets[k].device == d && s.sockets[k].Authenticated() && s.sockets[k].closed
            && s.sockets[k].down == NotIssued
  }

  function OpenSockets(s: State, d: DeviceId): set<SocketId> {
    set k | k in s.sockets && s.sockets[k].device == d && s.sockets[k].Authenticated() && !s.sockets[k].closed
  }

  ghost predicate SocketOk(c: Socket) {
    && (c.down == NotIssued <==> c.offline == NotIssued)
    && (c.down != NotIssued ==> c.closed && c.Authenticated())
  }

  /** A device with a count is online, or one of its connections is about to put it online. */
  ghost predicate OnlineOk(s: State, d: DeviceId)
    requires d in s.devices
  {
    s.devices[d].count > 0 && !s.devices[d].online ==>
      exists k :: k in s.sockets && s.sockets[k].device == d && s.sockets[k].step == Counted
  }

  ghost predicate CountOk(s: State, d: DeviceId)
    requires d in s.devices
  {
    s.devices[d].count >= 0 && s.devices[d].count == |Ups(s, d)| - |Downs(s, d)|
  }

  ghost predicate PresenceOk(s: State) {
    && (forall k | k in s.sockets :: SocketOk(s.sockets[k]))
    && (forall d | d in s.devices :: CountOk(s, d))
    && (forall d | d in s.devices :: OnlineOk(s, d))
  }

  /** Steps that leave the sockets alone. */
  predicate SocketFree(op: PresenceOp) {
    op.Elapses? || op.AddsDevice? || op.RemovesDevice? || op.Heartbeats? || op.Sweeps?
  }

  lemma SocketsKeepOk(s: State, op: PresenceOp)
    requires PresenceOk(s) && Possible(s, op)
    ensures forall k | k in After(s, op).sockets :: SocketOk(After(s, op).sockets[k])
  {
    hide CountOk, OnlineOk, Page;
  }

  lemma SocketFreeKeepsCounts(s: State, op: PresenceOp, d: DeviceId)
    requires PresenceOk(s) && Possible(s, op) && SocketFree(op) && d in After(s, op).devices
    ensures CountOk(After(s, op), d)
  {
    hide Page, OnlineOk, SocketOk, Ups, Downs;
    SameSockets(s, After(s, op), d);
    if d in s.devices {
      assert CountOk(s, d);
    }
  }

  lemma SameSockets(s: State, s': State, d: DeviceId)
    requires s'.sockets == s.sockets
    ensures Ups(s', d) == Ups(s, d) && Downs(s', d) == Downs(s, d)
    ensures (forall k | k in s.sockets :: s.sockets[k].device != d) ==> Ups(s, d) == {} && Downs(s, d) == {}
  {
  }

  /** Only the socket itself can enter or leave its device's sets. */
  lemma OneSocketMoves(s: State, s': State, k: SocketId, d: DeviceId)
    requires k in s'.sockets && s'.sockets == s.sockets[k := s'.sockets[k]]
    ensures Ups(s', d) == (Ups(s, d) - {k}) + (if s'.sockets[k].device == d && s'.sockets[k].Up() then {k} else {})
    ensures Downs(s', d) == (Downs(s, d) - {k}) + (if s'.sockets[k].device == d && s'.sockets[k].down == Ran(true) then {k} else {})
  {
  }

  /** What each statement does to the sets of one device, by the size of each. */
  lemma SetsMove(s: State, s': State, k: SocketId, d: DeviceId)
    requires k in s'.sockets && s'.sockets == s.sockets[k := s'.sockets[k]]
    requires k in s.sockets ==> s'.sockets[k].device == s.sockets[k].device
    ensures
      var wasUp := k in s.sockets && s.sockets[k].device == d && s.sockets[k].Up();
      var isUp := s'.sockets[k].device == d && s'.sockets[k].Up();
      |Ups(s', d)| == |Ups(s, d)| + (if isUp && !wasUp then 1 else if wasUp && !isUp then -1 else 0)
    ensures
      var wasDown := k in s.sockets && s.sockets[k].device == d && s.sockets[k].down == Ran(true);
      var isDown := s'.sockets[k].device == d && s'.sockets[k].down == Ran(true);
      |Downs(s', d)| == |Downs(s, d)| + (if isDown && !wasDown then 1 else if wasDown && !isDown then -1 else 0)
  {
    OneSocketMoves(s, s', k, d);
    UpsMember(s, d, k);
    hide Ups, Downs;
  }

  lemma CountingKeepsCounts(s: State, op: PresenceOp, d: DeviceId)
    requires (op.CountsUp? || op.CountsDown?) && Possible(s, op) && d in s.devices && CountOk(s, d)
    ensures CountOk(After(s, op), d)
  {
    SetsMove(s, After(s, op), op.socket, d);
    hide Ups, Downs;
  }

  lemma OtherStepsKeepCounts(s: State, op: PresenceOp, d: DeviceId)
    requires op.Connects? || op.Authenticates? || op.GoesOnline? || op.Disconnects? || op.GoesOffline?
    requires Possible(s, op) && d in s.devices && CountOk(s, d)
    requires op.Disconnects? ==> op.socket in s.sockets && SocketOk(s.sockets[op.socket])
    ensures CountOk(After(s, op), d)
  {
    SetsMove(s, After(s, op), op.socket, d);
    hide Ups, Downs;
  }

  lemma SocketStepKeepsCounts(s: State, op: PresenceOp, d: DeviceId)
    requires PresenceOk(s) && Possible(s, op) && !SocketFree(op) && d in After(s, op).devices
    ensures CountOk(After(s, op), d)
  {
    assert d in s.devices && CountOk(s, d);
    hide CountOk, OnlineOk, SocketOk, After;
    if op.CountsUp? || op.CountsDown? {
      CountingKeepsCounts(s, op, d);
    } else {
      OtherStepsKeepCounts(s, op, d);
    }
  }

  lemma UpsMember(s: State, d: DeviceId, k: SocketId)
    ensures k in Ups(s, d) <==> k in s.sockets && s.sockets[k].device == d && s.sockets[k].Up()
    ensures k in Downs(s, d) <==> k in s.sockets && s.sockets[k].device == d && s.sockets[k].down == Ran(true)
  {
  }

  lemma StepKeepsOnline(s: State, op: PresenceOp, d: DeviceId)
    requires PresenceOk(s) && Possible(s, op) && d in After(s, op).devices
    ensures OnlineOk(After(s, op), d)
  {
    var s' := After(s, op);
    hide CountOk, Page;
    if s'.devices[d].count > 0 && !s'.devices[d].online && d in s.devices {
      if op.CountsUp? && s.sockets[op.socket].device == d {
        assert s'.sockets[op.socket].step == Counted;
      } else if op.Sweeps? && d in op.rows {
        SweptHaveNoCount(s, op, d);
      } else {
        assert OnlineOk(s, d);
        var k :| k in s.sockets && s.sockets[k].device == d && s.sockets[k].step == Counted;
        assert s'.sockets[k].step == Counted && s'.sockets[k].device == d;
      }
    }
  }

  lemma SweptHaveNoCount(s: State, op: PresenceOp, d: DeviceId)
    requires op.Sweeps? && Possible(s, op) && d in op.rows
    ensures d in s.devices && s.devices[d].count <= 0
  {
    assert d in StaleKey(s, op.ttlMs);
  }

  lemma StepKeepsPresence(s: State, op: PresenceOp)
    requires PresenceOk(s) && Possible(s, op)
    ensures PresenceOk(After(s, op))
  {
    SocketsKeepOk(s, op);
    forall d | d in After(s, op).devices ensures CountOk(After(s, op), d) && OnlineOk(After(s, op), d) {
      StepKeepsOnline(s, op, d);
      if SocketFree(op) {
        SocketFreeKeepsCounts(s, op, d);
      } else {
        SocketStepKeepsCounts(s, op, d);
      }
    }
    hide After, Possible, CountOk, OnlineOk, SocketOk;
  }

  lemma {:induction false} RunKeepsPresence(s: State, ops: seq<PresenceOp>, s': State)
    requires PresenceOk(s) && Leads(s, ops, s')
    ensures PresenceOk(s')
    decreases |ops|
  {
    hide PresenceOk, After, Possible;
    if ops != [] {
      StepKeepsPresence(s, ops[0]);
      RunKeepsPresence(After(s, ops[0]), ops[1..], s');
    }
  }

  lemma QuietIsOk(s: State)
    requires Quiet(s)
    ensures PresenceOk(s)
  {
    assert forall d :: Ups(s, d) == {} && Downs(s, d) == {};
  }

  // ----- at quiescence -----

  /** No handshake and no statement is under way. */
  ghost predicate Quiescent(s: State) {
    forall k | k in s.sockets ::
      (s.sockets[k].step == Ready || s.sockets[k].step == Rejected)
      && !s.sockets[k].down.Issued? && !s.sockets[k].offline.Issued?
  }

  /** At rest, a counted socket is open, missed, taken down, or clamped, and only one of them. */
  lemma SplitSocket(s: State, d: DeviceId, k: SocketId)
    requires k in s.sockets ==> SocketOk(s.sockets[k])
    requires Quiescent(s)
    ensures k in Ups(s, d) <==> k in OpenSockets(s, d) || k in Missed(s, d) || k in Downs(s, d) || k in Clamped(s, d)
    ensures k in OpenSockets(s, d) ==> k !in Missed(s, d) && k !in Downs(s, d) && k !in Clamped(s, d)
    ensures k in Missed(s, d) ==> k !in Downs(s, d) && k !in Clamped(s, d)
    ensures k in Downs(s, d) ==> k !in Clamped(s, d)
  {
  }

  lemma FourParts<T>(all: set<T>, a: set<T>, b: set<T>, c: set<T>, d: set<T>)
    requires forall x :: x in all <==> x in a || x in b || x in c || x in d
    requires a !! b && (a + b) !! c && (a + b + c) !! d
    ensures |all| == |a| + |b| + |c| + |d|
  {
    assert all == a + b + c + d;
  }

  lemma SplitUps(s: State, d: DeviceId)
    requires PresenceOk(s) && Quiescent(s)
    ensures |Ups(s, d)| == |OpenSockets(s, d)| + |Missed(s, d)| + |Downs(s, d)| + |Clamped(s, d)|
  {
    assert forall k | k in s.sockets :: SocketOk(s.sockets[k]);
    hide SocketOk, PresenceOk, Ups, OpenSockets, Missed, Downs, Clamped, Quiescent;
    forall k
      ensures k in Ups(s, d) <==> k in OpenSockets(s, d) || k in Missed(s, d) || k in Downs(s, d) || k in Clamped(s, d)
      ensures k in OpenSockets(s, d) ==> k !in Missed(s, d) && k !in Downs(s, d) && k !in Clamped(s, d)
      ensures k in Missed(s, d) ==> k !in Downs(s, d) && k !in Clamped(s, d)
      ensures k in Downs(s, d) ==> k !in Clamped(s, d)
    {
      SplitSocket(s, d, k);
    }
    FourParts(Ups(s, d), OpenSockets(s, d), Missed(s, d), Downs(s, d), Clamped(s, d));
  }

  /**
   * In every interleaving, once everything has run: the stored count is the number of open
   * sockets, plus those whose disconnect was handled too early to be counted down, plus those
   * whose decrement ran against zero. So it is exact precisely when neither ever happened,
   * and never too low; and a device with a count is online.
   */
  lemma SocketCountAtRest(s0: State, ops: seq<PresenceOp>, s: State, d: DeviceId)
    requires Quiet(s0) && Leads(s0, ops, s) && Quiescent(s) && d in s.devices
    ensures s.devices[d].count == |OpenSockets(s, d)| + |Missed(s, d)| + |Clamped(s, d)|
    ensures s.devices[d].count == |OpenSockets(s, d)| <==> Missed(s, d) == {} && Clamped(s, d) == {}
    ensures s.devices[d].count > 0 ==> s.devices[d].online
  {
    QuietIsOk(s0);
    RunKeepsPresence(s0, ops, s);
    SplitUps(s, d);
    assert CountOk(s, d) && OnlineOk(s, d);
    hide Ups, Downs, OpenSockets, Missed, Clamped;
    assert |Missed(s, d)| == 0 <==> Missed(s, d) == {};
    assert |Clamped(s, d)| == 0 <==> Clamped(s, d) == {};
  }

  // ----- when the count is exact -----

  /** The disconnect finds the device id set, and the decrement finds its own increment done. */
  predicate InOrder(s: State, op: PresenceOp) {
    && (op.Disconnects? && op.socket in s.sockets ==> s.sockets[op.socket].step != Pending)
    && (op.CountsDown? && op.socket in s.sockets ==> s.sockets[op.socket].Up())
  }

  ghost predicate AllInOrder(s: State, ops: seq<PresenceOp>, s': State)
    requires Leads(s, ops, s')
    decreases |ops|
  {
    ops != [] ==> InOrder(s, ops[0]) && AllInOrder(After(s, ops[0]), ops[1..], s')
  }

  ghost predicate NoLeak(s: State) {
    forall k | k in s.sockets :: SocketLeaksNot(s, k)
  }

  ghost predicate SocketLeaksNot(s: State, k: SocketId)
    requires k in s.sockets
  {
    var c := s.sockets[k];
    && (c.closed ==> c.step == Rejected || c.down != NotIssued)
    && (c.down.Ran? ==> c.Up())
    && (c.device in s.devices ==> c.down != Ran(false))
  }

  /** A socket that is up and not yet down keeps its device's count positive. */
  lemma UpNotDownCounts(s: State, k: SocketId)
    requires PresenceOk(s) && NoLeak(s) && k in s.sockets && s.sockets[k].device in s.devices
    requires s.sockets[k].Up() && !s.sockets[k].down.Ran?
    ensures s.devices[s.sockets[k].device].count > 0
  {
    var d := s.sockets[k].device;
    assert CountOk(s, d);
    assert forall x | x in s.sockets :: SocketLeaksNot(s, x);
    assert Downs(s, d) <= Ups(s, d) - {k};
    SubsetSize(Downs(s, d), Ups(s, d) - {k});
    assert k in Ups(s, d);
  }

  lemma SocketStepLeaksNot(s: State, op: PresenceOp, k: SocketId)
    requires Possible(s, op) && InOrder(s, op) && k in After(s, op).sockets
    requires k in s.sockets ==> SocketLeaksNot(s, k) && SocketOk(s.sockets[k])
    requires op.CountsDown? && s.sockets[op.socket].device in s.devices ==> s.devices[s.sockets[op.socket].device].count > 0
    ensures SocketLeaksNot(After(s, op), k)
  {
    hide Page;
  }

  lemma StepKeepsNoLeak(s: State, op: PresenceOp)
    requires PresenceOk(s) && NoLeak(s) && Possible(s, op) && InOrder(s, op)
    ensures NoLeak(After(s, op))
  {
    if op.CountsDown? && s.sockets[op.socket].device in s.devices {
      UpNotDownCounts(s, op.socket);
    }
    assert forall k | k in s.sockets :: SocketLeaksNot(s, k) && SocketOk(s.sockets[k]);
    hide CountOk, OnlineOk, SocketOk, PresenceOk, SocketLeaksNot, After, Possible, InOrder;
    forall k | k in After(s, op).sockets ensures SocketLeaksNot(After(s, op), k) {
      SocketStepLeaksNot(s, op, k);
    }
  }

  lemma {:induction false} RunKeepsNoLeak(s: State, ops: seq<PresenceOp>, s': State)
    requires PresenceOk(s) && NoLeak(s) && Leads(s, ops, s') && AllInOrder(s, ops, s')
    ensures NoLeak(s')
    decreases |ops|
  {
    hide PresenceOk, NoLeak, After, Possible, InOrder;
    if ops != [] {
      StepKeepsPresence(s, ops[0]);
      StepKeepsNoLeak(s, ops[0]);
      RunKeepsNoLeak(After(s, ops[0]), ops[1..], s');
    }
  }

  /**
   * If every disconnect is handled after the handshake has set the device id, and every
   * decrement runs after its own socket's increment, then, however else the statements
   * interleave, the count at rest is exactly the number of open sockets.
   */
  lemma OrderedRunsCountExactly(s0: State, ops: seq<PresenceOp>, s: State, d: DeviceId)
    requires Quiet(s0) && Leads(s0, ops, s) && AllInOrder(s0, ops, s) && Quiescent(s) && d in s.devices
    ensures s.devices[d].count == |OpenSockets(s, d)|
  {
    QuietIsOk(s0);
    RunKeepsNoLeak(s0, ops, s);
    SocketCountAtRest(s0, ops, s, d);
    assert Missed(s, d) == {} && Clamped(s, d) == {};
  }

  // ----- two runs that leave a count behind -----

  function OneDevice(): State {
    State(0, map[0 := Device(7, 0, false, None)], map[])
  }

  lemma LeadsOne(s: State, op: PresenceOp, rest: seq<PresenceOp>, s': State)
    requires Possible(s, op) && Leads(After(s, op), rest, s')
    ensures Leads(s, [op] + rest, s')
  {
    hide Possible, After;
    assert ([op] + rest)[1..] == rest;
  }

  /** The socket closes during the handshake: nothing is counted down, and the handshake goes on to count up. */
  lemma EarlyDisconnectLeaks() returns (ops: seq<PresenceOp>, s: State)
    ensures Quiet(OneDevice()) && Leads(OneDevice(), ops, s) && Quiescent(s)
    ensures 0 in s.devices && s.devices[0].count == 1 && s.devices[0].online && OpenSockets(s, 0) == {} && Missed(s, 0) == {0}
  {
    var s1 := After(OneDevice(), Connects(0, 0));
    var s2 := After(s1, Disconnects(0));
    var s3 := After(s2, Authenticates(0, true));
    var s4 := After(s3, CountsUp(0));
    s := After(s4, GoesOnline(0));
    hide Leads;
    LeadsNothing(s);
    LeadsOne(s4, GoesOnline(0), [], s);
    LeadsOne(s3, CountsUp(0), [GoesOnline(0)], s);
    LeadsOne(s2, Authenticates(0, true), [CountsUp(0)] + [GoesOnline(0)], s);
    LeadsOne(s1, Disconnects(0), [Authenticates(0, true)] + ([CountsUp(0)] + [GoesOnline(0)]), s);
    ops := [Connects(0, 0)] + ([Disconnects(0)] + ([Authenticates(0, true)] + ([CountsUp(0)] + [GoesOnline(0)])));
    LeadsOne(OneDevice(), Connects(0, 0), [Disconnects(0)] + ([Authenticates(0, true)] + ([CountsUp(0)] + [GoesOnline(0)])), s);
  }

  lemma LeadsNothing(s: State)
    ensures Leads(s, [], s)
  {
  }

  /** The decrement overtakes the increment and is clamped at zero. */
  lemma OvertakingDecrementLeaks() returns (ops: seq<PresenceOp>, s: State)
    ensures Quiet(OneDevice()) && Leads(OneDevice(), ops, s) && Quiescent(s)
    ensures 0 in s.devices && s.devices[0].count == 1 && OpenSockets(s, 0) == {} && Clamped(s, 0) == {0}
  {
    var s1 := After(OneDevice(), Connects(0, 0));
    var s2 := After(s1, Authenticates(0, true));
    var s3 := After(s2, Disconnects(0));
    var s4 := After(s3, CountsDown(0));
    var s5 := After(s4, GoesOffline(0));
    var s6 := After(s5, CountsUp(0));
    s := After(s6, GoesOnline(0));
    hide Leads;
    LeadsNothing(s);
    LeadsOne(s6, GoesOnline(0), [], s);
    LeadsOne(s5, CountsUp(0), [GoesOnline(0)], s);
    LeadsOne(s4, GoesOffline(0), [CountsUp(0)] + [GoesOnline(0)], s);
    LeadsOne(s3, CountsDown(0), [GoesOffline(0)] + ([CountsUp(0)] + [GoesOnline(0)]), s);
    ops := [CountsDown(0)] + ([GoesOffline(0)] + ([CountsUp(0)] + [GoesOnline(0)]));
    LeadsOne(s2, Disconnects(0), ops, s);
    ops := [Disconnects(0)] + ops;
    LeadsOne(s1, Authenticates(0, true), ops, s);
    ops := [Authenticates(0, true)] + ops;
    LeadsOne(OneDevice(), Connects(0, 0), ops, s);
    ops := [Connects(0, 0)] + ops;
  }

  // ----- the online flag -----

  /** The operation writes the online flag or the count of device `d`. */
  predicate Writes(s: State, op: PresenceOp, d: DeviceId) {
    || ((op.CountsUp? || op.CountsDown? || op.GoesOnline? || op.GoesOffline?)
        && op.socket in s.sockets && s.sockets[op.socket].device == d)
    || ((op.AddsDevice? || op.Heartbeats?) && op.device == d)
    || (op.Sweeps? && d in op.rows)
  }

  /** The last operation of a run that writes device `d`; `last` is the one before the run. */
  ghost function LastWrite(s: State, ops: seq<PresenceOp>, s': State, d: DeviceId, last: Option<PresenceOp>): Option<PresenceOp>
    requires Leads(s, ops, s')
    decreases |ops|
  {
    if ops == [] then last
    else LastWrite(After(s, ops[0]), ops[1..], s', d, if Writes(s, ops[0], d) then Some(ops[0]) else last)
  }

  /** The offline update of a disconnection, or the sweep. */
  predicate PutsOffline(op: PresenceOp) {
    op.GoesOffline? || op.Sweeps?
  }

  /** A connection of the device that has not written the flag yet. */
  ghost predicate OnItsWay(s: State, d: DeviceId) {
    exists k :: k in s.sockets && s.sockets[k].device == d && (s.sockets[k].step == Authed || s.sockets[k].step == Counted)
  }

  ghost predicate FlagOk(s: State, d: DeviceId, last: Option<PresenceOp>) {
    d in s.devices && last.Some? ==>
      if PutsOffline(last.value) then s.devices[d].count == 0 ==> !s.devices[d].online
      else s.devices[d].online || OnItsWay(s, d)
  }

  /** A decrement that finds the count at zero has overtaken a connection, which is still on its way. */
  lemma ClampNeedsComing(s: State, k: SocketId)
    requires PresenceOk(s) && k in s.sockets && s.sockets[k].down.Issued? && s.sockets[k].device in s.devices
    requires s.devices[s.sockets[k].device].count <= 0
    ensures OnItsWay(s, s.sockets[k].device)
  {
    var d := s.sockets[k].device;
    assert CountOk(s, d) && SocketOk(s.sockets[k]);
    if s.sockets[k].step == Ready {
      assert k in Ups(s, d) && k !in Downs(s, d);
      if Downs(s, d) <= Ups(s, d) {
        SubsetSize(Downs(s, d), Ups(s, d) - {k});
        assert false;
      }
      var j :| j in Downs(s, d) && j !in Ups(s, d);
      assert SocketOk(s.sockets[j]);
      assert s.sockets[j].step == Authed;
    }
  }

  lemma OnlineOrComing(s: State, d: DeviceId)
    requires PresenceOk(s) && d in s.devices && s.devices[d].count > 0
    ensures s.devices[d].online || OnItsWay(s, d)
  {
    assert OnlineOk(s, d);
  }

  /** The statement a write of `d` leaves behind. */
  lemma WriteSetsFlag(s: State, op: PresenceOp, d: DeviceId)
    requires PresenceOk(s) && Possible(s, op) && Writes(s, op, d)
    ensures FlagOk(After(s, op), d, Some(op))
  {
    var s' := After(s, op);
    if op.CountsDown? && d in s.devices {
      if s.devices[d].count > 0 {
        OnlineOrComing(s, d);
      } else {
        ClampNeedsComing(s, op.socket);
      }
      if OnItsWay(s, d) {
        ComingStays(s, op, d);
      }
    } else if op.CountsUp? {
      assert s'.sockets[op.socket].step == Counted;
    } else if op.Sweeps? {
      SweptHaveNoCount(s, op, d);
    }
    hide PresenceOk, Page;
  }

  /** A connection on its way stays there until a statement of its own. */
  lemma ComingStays(s: State, op: PresenceOp, d: DeviceId)
    requires Possible(s, op) && OnItsWay(s, d) && !(op.GoesOnline? && Writes(s, op, d))
    ensures OnItsWay(After(s, op), d)
  {
    var k :| k in s.sockets && s.sockets[k].device == d && (s.sockets[k].step == Authed || s.sockets[k].step == Counted);
    var s' := After(s, op);
    hide Page;
    assert k in s'.sockets && s'.sockets[k].device == d;
    assert s'.sockets[k].step == Authed || s'.sockets[k].step == Counted;
  }

  lemma OthersKeepFlag(s: State, op: PresenceOp, d: DeviceId)
    requires Possible(s, op) && !Writes(s, op, d) && d in After(s, op).devices
    ensures d in s.devices && After(s, op).devices[d].online == s.devices[d].online && After(s, op).devices[d].count == s.devices[d].count
  {
    hide Page;
  }

  lemma StepKeepsFlag(s: State, op: PresenceOp, d: DeviceId, last: Option<PresenceOp>)
    requires PresenceOk(s) && Possible(s, op) && FlagOk(s, d, last)
    ensures FlagOk(After(s, op), d, if Writes(s, op, d) then Some(op) else last)
  {
    hide PresenceOk, After, Possible, OnItsWay;
    if Writes(s, op, d) {
      WriteSetsFlag(s, op, d);
    } else if d in After(s, op).devices {
      OthersKeepFlag(s, op, d);
      if OnItsWay(s, d) {
        ComingStays(s, op, d);
      }
    }
  }

  lemma {:induction false} RunKeepsFlag(s: State, ops: seq<PresenceOp>, s': State, d: DeviceId, last: Option<PresenceOp>)
    requires PresenceOk(s) && Leads(s, ops, s') && FlagOk(s, d, last)
    ensures FlagOk(s', d, LastWrite(s, ops, s', d, last))
    decreases |ops|
  {
    hide PresenceOk, After, Possible, FlagOk, Writes;
    if ops != [] {
      var last' := if Writes(s, ops[0], d) then Some(ops[0]) else last;
      StepKeepsPresence(s, ops[0]);
      StepKeepsFlag(s, ops[0], d, last);
      RunKeepsFlag(After(s, ops[0]), ops[1..], s', d, last');
    }
  }

  /**
   * When a device is offline at rest. In every interleaving of connections, disconnections,
   * heartbeats, sweeps and device requests, once everything has run, a device something was
   * written to is offline if and only if the last write was the offline update of a
   * disconnection or a sweep, and the device has no open socket, no missed disconnect and no
   * clamped decrement.
   */
  lemma OfflineAtRestExactly(s0: State, ops: seq<PresenceOp>, s: State, d: DeviceId)
    requires Quiet(s0) && Leads(s0, ops, s) && Quiescent(s) && d in s.devices
    requires LastWrite(s0, ops, s, d, None).Some?
    ensures !s.devices[d].online
            <==> PutsOffline(LastWrite(s0, ops, s, d, None).value)
                 && OpenSockets(s, d) == {} && Missed(s, d) == {} && Clamped(s, d) == {}
  {
    QuietIsOk(s0);
    RunKeepsFlag(s0, ops, s, d, None);
    SocketCountAtRest(s0, ops, s, d);
    assert !OnItsWay(s, d);
    hide Leads, LastWrite, Quiescent, OnItsWay, OpenSockets, Missed, Clamped;
    assert OpenSockets(s, d) == {} <==> |OpenSockets(s, d)| == 0;
    assert Missed(s, d) == {} <==> |Missed(s, d)| == 0;
    assert Clamped(s, d) == {} <==> |Clamped(s, d)| == 0;
  }

  // ----- two runs after which the device stays online without a socket -----

  /** In order, and yet: the disconnect is handled between the two statements of the connection. */
  lemma LateOnlineUpdateWins() returns (ops: seq<PresenceOp>, s: State)
    ensures Quiet(OneDevice()) && Leads(OneDevice(), ops, s) && AllInOrder(OneDevice(), ops, s) && Quiescent(s)
    ensures 0 in s.devices && s.devices[0].online && s.devices[0].count == 0
    ensures OpenSockets(s, 0) == {} && Missed(s, 0) == {} && Clamped(s, 0) == {}
  {
    var s1 := After(OneDevice(), Connects(0, 0));
    var s2 := After(s1, Authenticates(0, true));
    var s3 := After(s2, CountsUp(0));
    var s4 := After(s3, Disconnects(0));
    var s5 := After(s4, CountsDown(0));
    var s6 := After(s5, GoesOffline(0));
    s := After(s6, GoesOnline(0));
    hide Leads, AllInOrder;
    InOrderNothing(s);
    InOrderOne(s6, GoesOnline(0), [], s);
    ops := [GoesOnline(0)] + [];
    InOrderOne(s5, GoesOffline(0), ops, s);
    ops := [GoesOffline(0)] + ops;
    InOrderOne(s4, CountsDown(0), ops, s);
    ops := [CountsDown(0)] + ops;
    InOrderOne(s3, Disconnects(0), ops, s);
    ops := [Disconnects(0)] + ops;
    InOrderOne(s2, CountsUp(0), ops, s);
    ops := [CountsUp(0)] + ops;
    InOrderOne(s1, Authenticates(0, true), ops, s);
    ops := [Authenticates(0, true)] + ops;
    InOrderOne(OneDevice(), Connects(0, 0), ops, s);
    ops := [Connects(0, 0)] + ops;
  }

  /** The two statements of the disconnect run in the other order: the offline update still finds the count at 1. */
  lemma EarlyOfflineUpdateMisses() returns (ops: seq<PresenceOp>, s: State)
    ensures Quiet(OneDevice()) && Leads(OneDevice(), ops, s) && AllInOrder(OneDevice(), ops, s) && Quiescent(s)
    ensures 0 in s.devices && s.devices[0].online && s.devices[0].count == 0
    ensures OpenSockets(s, 0) == {} && Missed(s, 0) == {} && Clamped(s, 0) == {}
  {
    var s1 := After(OneDevice(), Connects(0, 0));
    var s2 := After(s1, Authenticates(0, true));
    var s3 := After(s2, CountsUp(0));
    var s4 := After(s3, GoesOnline(0));
    var s5 := After(s4, Disconnects(0));
    var s6 := After(s5, GoesOffline(0));
    s := After(s6, CountsDown(0));
    hide Leads, AllInOrder;
    InOrderNothing(s);
    InOrderOne(s6, CountsDown(0), [], s);
    ops := [CountsDown(0)] + [];
    InOrderOne(s5, GoesOffline(0), ops, s);
    ops := [GoesOffline(0)] + ops;
    InOrderOne(s4, Disconnects(0), ops, s);
    ops := [Disconnects(0)] + ops;
    InOrderOne(s3, GoesOnline(0), ops, s);
    ops := [GoesOnline(0)] + ops;
    InOrderOne(s2, CountsUp(0), ops, s);
    ops := [CountsUp(0)] + ops;
    InOrderOne(s1, Authenticates(0, true), ops, s);
    ops := [Authenticates(0, true)] + ops;
    InOrderOne(OneDevice(), Connects(0, 0), ops, s);
    ops := [Connects(0, 0)] + ops;
  }

  lemma InOrderNothing(s: State)
    ensures Leads(s, [], s) && AllInOrder(s, [], s)
  {
  }

  lemma InOrderOne(s: State, op: PresenceOp, rest: seq<PresenceOp>, s': State)
    requires Possible(s, op) && InOrder(s, op) && Leads(After(s, op), rest, s') && AllInOrder(After(s, op), rest, s')
    ensures Leads(s, [op] + rest, s') && AllInOrder(s, [op] + rest, s')
  {
    hide Possible, After, InOrder;
    assert ([op] + rest)[1..] == rest;
  }

  // ----- what every statement writes -----

  /** The statement is of a connection of the device. */
  predicate IsOf(s: State, k: SocketId, d: DeviceId) {
    k in s.sockets && s.sockets[k].device == d
  }

  /**
   * What every statement and event does to a device row. The count follows the two counting
   * statements and never falls below zero; the flag follows connections and heartbeats, and goes
   * off only when the count is zero or in a sweep; the device was active when it connected, gave
   * a heartbeat, or disconnected.
   */
  lemma DeviceRowMovesExactly(s: State, op: PresenceOp, d: DeviceId)
    requires Possible(s, op) && d in s.devices
    ensures
      var (row, s') := (s.devices[d], After(s, op));
      && (d in s'.devices <==> op != RemovesDevice(d))
      && (d in s'.devices ==>
            s'.devices[d] == row.(
              count := if op.CountsUp? && IsOf(s, op.socket, d) then row.count + 1
                       else if op.CountsDown? && IsOf(s, op.socket, d) then (if row.count > 0 then row.count - 1 else 0)
                       else row.count,
              online := if (op.GoesOnline? && IsOf(s, op.socket, d)) || op == Heartbeats(d) then true
                        else if op.GoesOffline? && IsOf(s, op.socket, d) && row.count == 0 then false
                        else if op.Sweeps? && d in op.rows then false
                        else row.online,
              lastActive := if (op.GoesOnline? && IsOf(s, op.socket, d)) || op == Heartbeats(d) then Some(s.now)
                            else if op.CountsDown? && IsOf(s, op.socket, d) then Some(s.sockets[op.socket].down.at)
                            else row.lastActive))
  {
    hide Page;
  }

  /** A device row comes with a login that has none: online, active now, without a connection. */
  lemma DevicesComeExactly(s: State, op: PresenceOp, d: DeviceId)
    requires Possible(s, op) && d !in s.devices
    ensures d in After(s, op).devices <==> op.AddsDevice? && op.device == d
    ensures d in After(s, op).devices ==> After(s, op).devices[d] == Device(op.user, 0, true, Some(s.now))
  {
    hide Page;
  }

  /**
   * What every statement and event does to a connection. It is authenticated exactly with a valid
   * token of an existing device; it issues its two closing statements, dated now, exactly if it is
   * closed after that.
   */
  lemma SocketMovesExactly(s: State, op: PresenceOp, k: SocketId)
    requires Possible(s, op) && k in s.sockets
    ensures
      var (c, s') := (s.sockets[k], After(s, op));
      && k in s'.sockets
      && s'.sockets[k] == c.(
           step := if op.Authenticates? && op.socket == k then (if op.ok && c.device in s.devices then Authed else Rejected)
                   else if op == CountsUp(k) then Counted
                   else if op == GoesOnline(k) then Ready
                   else c.step,
           closed := c.closed || op == Disconnects(k),
           down := if op == Disconnects(k) && c.step != Pending && c.step != Rejected then Issued(s.now)
                   else if op == CountsDown(k) then Ran(c.device in s.devices && s.devices[c.device].count > 0)
                   else c.down,
           offline := if op == Disconnects(k) && c.step != Pending && c.step != Rejected then Issued(s.now)
                      else if op == GoesOffline(k) then
                        Ran(c.device in s.devices && s.devices[c.device].count == 0 && s.devices[c.device].online)
                      else c.offline)
  {
    hide Page;
  }

  // ----- the sweep -----

  /**
   * A sweep puts offline at most 500 devices, all of them stale, and leaves max(0, n - 500) of
   * n stale ones; if there were no more than 500, every device still online has a count or was
   * active within the TTL.
   */
  lemma SweepIsExact(s: State, ttlMs: nat, rows: seq<DeviceId>)
    requires Page(rows, StaleKey(s, ttlMs), STALE_BATCH)
    ensures
      var s' := After(s, Sweeps(ttlMs, rows));
      && StaleKey(s', ttlMs).Keys == StaleKey(s, ttlMs).Keys - Ids(rows)
      && |StaleKey(s', ttlMs)| == Max(0, |StaleKey(s, ttlMs)| - 500)
      && (forall d | d in s.devices && d !in rows :: s'.devices[d] == s.devices[d])
      && (forall d | d in rows ::
            && d in s.devices && s.devices[d].online && s.devices[d].count <= 0
            && (s.devices[d].lastActive.None? || s.devices[d].lastActive.value < s.now - ttlMs)
            && !s'.devices[d].online)
      && (|StaleKey(s, ttlMs)| <= STALE_BATCH ==>
            forall d | d in s'.devices && s'.devices[d].online ::
              s'.devices[d].count > 0 || (s'.devices[d].lastActive.Some? && s'.devices[d].lastActive.value >= s.now - ttlMs))
  {
    var s' := After(s, Sweeps(ttlMs, rows));
    PageTakes(rows, StaleKey(s, ttlMs), STALE_BATCH);
    assert forall d | d in rows :: d in StaleKey(s, ttlMs);
    assert StaleKey(s', ttlMs).Keys == StaleKey(s, ttlMs).Keys - Ids(rows);
    assert |StaleKey(s', ttlMs)| == |StaleKey(s', ttlMs).Keys|;
    if |StaleKey(s, ttlMs)| <= STALE_BATCH {
      assert StaleKey(s', ttlMs).Keys == {};
      assert forall d | d in s'.devices :: d !in StaleKey(s', ttlMs).Keys;
    }
  }

  /** Swept at rest, with the statements in order: online means an open socket or recent activity. */
  lemma OnlineMeansPresent(s0: State, ops: seq<PresenceOp>, s: State, ttlMs: nat, rows: seq<DeviceId>, d: DeviceId)
    requires Quiet(s0) && Leads(s0, ops, s) && AllInOrder(s0, ops, s) && Quiescent(s)
    requires Possible(s, Sweeps(ttlMs, rows)) && |StaleKey(s, ttlMs)| <= STALE_BATCH
    requires d in s.devices && After(s, Sweeps(ttlMs, rows)).devices[d].online
    ensures OpenSockets(s, d) != {} || (s.devices[d].lastActive.Some? && s.devices[d].lastActive.value >= s.now - ttlMs)
  {
    SweepIsExact(s, ttlMs, rows);
    OrderedRunsCountExactly(s0, ops, s, d);
    hide Leads, AllInOrder, Page;
    assert |OpenSockets(s, d)| > 0 ==> OpenSockets(s, d) != {};
  }
}
