/** events.gateway.ts and presence.scheduler.ts, one method a statement of the gateway. */
module PresenceServices {
  import opened Prelude
  import opened Query
  import opened Grouping
  import opened PresenceSpec

  class DeviceTable {
    var now: Millis
    var devices: map<DeviceId, Device>

    constructor (startedAt: Millis)
      ensures now == startedAt && devices == map[]
    {
      now, devices := startedAt, map[];
    }
  }

  class EventsGateway {
    const db: DeviceTable
    var sockets: map<SocketId, Socket>

    constructor (db: DeviceTable)
      ensures this.db == db && sockets == map[]
    {
      this.db, sockets := db, map[];
    }

    function Snapshot(): State
      reads this, db
    {
      State(db.now, db.devices, sockets)
    }

    // ----- handleConnection, from one await to the next -----

    method HandleConnection(k: SocketId, d: DeviceId)
      requires k !in sockets
      modifies this
      ensures Snapshot() == After(old(Snapshot()), Connects(k, d))
    {
      sockets := sockets[k := Socket(d, Pending, false, NotIssued, NotIssued)];
    }

    /** The two queries come back; a refused handshake disconnects the socket itself. */
    method FinishHandshake(k: SocketId, ok: bool)
      requires k in sockets && sockets[k].step == Pending
      modifies this
      ensures Snapshot() == After(old(Snapshot()), Authenticates(k, ok))
    {
      var client := sockets[k];
      if !ok || client.device !in db.devices {
        sockets := sockets[k := client.(step := Rejected)];
      } else {
        sockets := sockets[k := client.(step := Authed)];
      }
    }

    method IncrementCount(k: SocketId)
      requires k in sockets && sockets[k].step == Authed
      modifies this, db
      ensures Snapshot() == After(old(Snapshot()), CountsUp(k))
    {
      var client := sockets[k];
      if client.device in db.devices {
        var row := db.devices[client.device];
        db.devices := db.devices[client.device := row.(count := row.count + 1)];
      }
      sockets := sockets[k := client.(step := Counted)];
    }

    method SetOnline(k: SocketId)
      requires k in sockets && sockets[k].step == Counted
      modifies this, db
      ensures Snapshot() == After(old(Snapshot()), GoesOnline(k))
    {
      var client := sockets[k];
      if client.device in db.devices {
        var row := db.devices[client.device];
        db.devices := db.devices[client.device := row.(online := true, lastActive := Some(db.now))];
      }
      sockets := sockets[k := client.(step := Ready)];
    }

    // ----- handleDisconnect: the event, and the two statements it does not wait for -----

    method HandleDisconnect(k: SocketId)
      requires k in sockets && !sockets[k].closed
      modifies this
      ensures Snapshot() == After(old(Snapshot()), Disconnects(k))
    {
      var client := sockets[k].(closed := true);
      if client.step == Pending || client.step == Rejected {
        sockets := sockets[k := client];
        return;
      }
      sockets := sockets[k := client.(down := Issued(db.now), offline := Issued(db.now))];
    }

    method DecrementCount(k: SocketId)
      requires k in sockets && sockets[k].down.Issued?
      modifies this, db
      ensures Snapshot() == After(old(Snapshot()), CountsDown(k))
    {
      var client := sockets[k];
      var took := false;
      if client.device in db.devices {
        var row := db.devices[client.device];
        took := row.count > 0;
        var count := row.count - 1;
        if count < 0 {
          count := 0;
        }
        db.devices := db.devices[client.device := row.(count := count, lastActive := Some(client.down.at))];
      }
      sockets := sockets[k := client.(down := Ran(took))];
    }

    method SetOfflineIfIdle(k: SocketId) returns (announce: bool)
      requires k in sockets && sockets[k].offline.Issued?
      modifies this, db
      ensures Snapshot() == After(old(Snapshot()), GoesOffline(k))
      ensures announce <==> old(db.devices) != db.devices
    {
      var client := sockets[k];
      announce := client.device in db.devices && db.devices[client.device].count == 0 && db.devices[client.device].online;
      if announce {
        db.devices := db.devices[client.device := db.devices[client.device].(online := false)];
        assert !db.devices[client.device].online;
      }
      sockets := sockets[k := client.(offline := Ran(announce))];
    }
  }

  class PresenceScheduler {
    const db: DeviceTable
    const ttlMs: nat

    constructor (db: DeviceTable, ttlMs: nat)
      ensures this.db == db && this.ttlMs == ttlMs
    {
      this.db, this.ttlMs := db, ttlMs;
    }

    /** Puts one page of stale devices offline and groups them by user for the broadcast. */
    method SweepOffline(ghost sockets: map<SocketId, Socket>) returns (byUser: map<UserId, seq<DeviceId>>, ghost rows: seq<DeviceId>)
      modifies db
      ensures
        var s := State(old(db.now), old(db.devices), sockets);
        && Possible(s, Sweeps(ttlMs, rows))
        && State(db.now, db.devices, sockets) == After(s, Sweeps(ttlMs, rows))
      ensures forall d | d in rows :: d in old(db.devices) && old(db.devices)[d].user in byUser
      ensures
        var userOf := map d | d in rows && d in old(db.devices) :: old(db.devices)[d].user;
        (forall d | d in rows :: d in userOf) && forall u | u in byUser :: BroadcastOf(byUser[u], rows, userOf, u)
    {
      hide Page, Bucket, BroadcastOf;
      ghost var s := State(db.now, db.devices, sockets);
      var cutoff := db.now - ttlMs;
      var key := map d | d in db.devices && db.devices[d].online && db.devices[d].count <= 0
                         && (db.devices[d].lastActive.None? || db.devices[d].lastActive.value < cutoff) :: 0;
      assert key == StaleKey(s, ttlMs);
      var stale := Fetch(key, STALE_BATCH);
      rows := stale;
      StaleRowsExist(stale, key);
      var userOf := map d | d in stale && d in db.devices :: db.devices[d].user;
      if |stale| == 0 {
        assert PresenceSpec.SweepOffline(s, stale).devices == s.devices;
        byUser := GroupBy(stale, userOf);
        return;
      }
      db.devices := map d | d in db.devices :: if d in stale then db.devices[d].(online := false) else db.devices[d];
      byUser := GroupBy(stale, userOf);
    }

    lemma StaleRowsExist(rows: seq<DeviceId>, key: map<DeviceId, int>)
      requires Page(rows, key, STALE_BATCH)
      ensures forall d | d in rows :: d in key
    {
    }
  }
}
