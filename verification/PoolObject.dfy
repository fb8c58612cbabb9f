/** The pool itself as an object: the methods of internal/sshpool/pool.go that change the
    entries map, each stated for a call that runs undisturbed. PoolMachine cuts the same
    methods into their critical sections and interleaves them. */
module PoolObject {
  import opened PoolEntries

  class Pool {
    var entries: map<int, PoolEntry>
    const idleTime: int
    const redialInterval: int

    ghost predicate Valid()
      reads this, Objects()
    {
      forall k :: k in entries ==> entries[k].asset == k
    }

    function Objects(): set<PoolEntry>
      reads this
    {
      set k | k in entries :: entries[k]
    }

    constructor (idleTime: int, redialInterval: int)
      ensures Valid() && entries == map[]
      ensures this.idleTime == idleTime && this.redialInterval == redialInterval
    {
      entries := map[];
      this.idleTime, this.redialInterval := idleTime, redialInterval;
    }

    /** Puts a freshly dialed entry into the map (the end of dialShared). */
    method Publish(asset: int, now: int) returns (entry: PoolEntry)
      requires Valid()
      modifies this
      ensures Valid() && fresh(entry) && entry.Value() == Dialed(asset, now)
      ensures entries == old(entries)[asset := entry]
    {
      entry := new PoolEntry(asset, now);
      entries := entries[asset := entry];
    }

    method RemoveEntry(asset: int, entry: PoolEntry)
      requires Valid()
      modifies this, entry
      ensures Valid()
      ensures entries == if asset in old(entries) && old(entries)[asset] == entry then old(entries) - {asset}
                         else old(entries)
      ensures entry.Value() == old(entry.Value()).Retired().ConnClosed()
    {
      if asset in entries && entries[asset] == entry {
        entries := entries - {asset};
      }
      entry.Close();
    }

    /** Releases whatever entry the map holds for the asset, not the one borrowed. */
    method Release(asset: int, now: int)
      requires Valid()
      modifies Objects()
      ensures Valid() && entries == old(entries)
      ensures forall k :: k in entries ==>
        entries[k].Value() == if k == asset then old(entries[k].Value()).Released(now) else old(entries[k].Value())
    {
      if asset in entries {
        entries[asset].Release(now);
      }
    }

    /** Reports whether the caller should dial again. */
    method ReleaseRefused(asset: int, client: PoolEntry, now: int) returns (redial: bool)
      requires Valid()
      modifies this, client
      ensures Valid()
      ensures asset !in old(entries) || old(entries)[asset] != client ==>
        redial && entries == old(entries) && client.Value() == old(client.Value())
      ensures asset in old(entries) && old(entries)[asset] == client ==>
        && redial == old(client.Value()).RefusalRetires(now, redialInterval)
        && entries == (if redial then old(entries) - {asset} else old(entries))
        && var left := old(client.Value()).Refused(now, redialInterval);
           client.Value() == if redial then left.ConnClosed() else left
    {
      if asset !in entries || entries[asset] != client {
        return true;
      }
      var retired := client.RetireRefused(now, redialInterval);
      if !retired {
        return false;
      }
      entries := entries - {asset};
      client.CloseConn();
      return true;
    }

    method Remove(asset: int)
      requires Valid()
      modifies this, Objects()
      ensures Valid() && entries == old(entries) - {asset}
      ensures asset in old(entries) ==>
        old(entries)[asset].Value() == old(entries[asset].Value()).Retired().ConnClosed()
      ensures forall k :: k in entries ==> entries[k].Value() == old(entries[k].Value())
    {
      if asset in entries {
        var entry := entries[asset];
        entries := entries - {asset};
        entry.Close();
      }
    }

    method Close()
      requires Valid()
      modifies this, Objects()
      ensures Valid() && entries == map[]
      ensures forall e :: e in old(Objects()) ==> e.Value() == old(e.Value()).Retired().ConnClosed()
    {
      var todo := Objects();
      entries := map[];
      while todo != {}
        invariant todo <= old(Objects()) && entries == map[]
        invariant forall e :: e in todo ==> e.Value() == old(e.Value())
        invariant forall e :: e in old(Objects()) - todo ==> e.Value() == old(e.Value()).Retired().ConnClosed()
      {
        var e :| e in todo;
        e.Close();
        todo := todo - {e};
      }
    }

    /** Retires, drops and closes exactly the entries idle for longer than idleTime that
        nobody holds; every other entry keeps its place and its value. */
    method CleanupIdle(now: int)
      requires Valid()
      modifies this, Objects()
      ensures Valid()
      ensures forall k :: k in entries <==> k in old(entries) && !old(entries[k].Value()).IdleExpired(now, idleTime)
      ensures forall k :: k in entries ==>
                entries[k] == old(entries)[k] && entries[k].Value() == old(entries[k].Value())
      ensures forall k :: k in old(entries) && k !in entries ==>
        old(entries)[k].Value() == old(entries[k].Value()).Retired().ConnClosed()
    {
      var idle := RetireIdle(Objects(), now);
      entries := map k | k in entries && entries[k] !in idle :: entries[k];
      var todo := idle;
      while todo != {}
        invariant todo <= idle
        invariant entries == map k | k in old(entries) && old(entries)[k] !in idle :: old(entries)[k]
        invariant forall e :: e in todo ==> e.Value() == old(e.Value()).Retired()
        invariant forall e :: e in idle - todo ==> e.Value() == old(e.Value()).Retired().ConnClosed()
        invariant forall e :: e in old(Objects()) - idle ==> e.Value() == old(e.Value())
      {
        var e :| e in todo;
        e.CloseConn();
        todo := todo - {e};
      }
      forall k | k in old(entries)
        ensures old(entries)[k] in idle <==> old(entries[k].Value()).IdleExpired(now, idleTime)
      {
        assert old(entries)[k] in old(Objects());
      }
    }

    /** The first pass of cleanupIdle, over the snapshot. */
    method RetireIdle(snapshot: set<PoolEntry>, now: int) returns (idle: set<PoolEntry>)
      modifies snapshot
      ensures idle == set e | e in snapshot && old(e.Value()).IdleExpired(now, idleTime)
      ensures forall e :: e in snapshot ==>
        e.Value() == if e in idle then old(e.Value()).Retired() else old(e.Value())
    {
      idle := {};
      var todo := snapshot;
      while todo != {}
        invariant todo <= snapshot
        invariant idle == set e | e in snapshot - todo && old(e.Value()).IdleExpired(now, idleTime)
        invariant forall e :: e in snapshot ==>
          e.Value() == if e in idle then old(e.Value()).Retired() else old(e.Value())
      {
        var e :| e in todo;
        var retired := e.RetireIfIdle(now, idleTime);
        if retired {
          idle := idle + {e};
        }
        todo := todo - {e};
      }
    }
  }
}
