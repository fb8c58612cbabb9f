/** One entry of the SSH connection pool (internal/sshpool/pool.go): what each critical
    section under the entry's own mutex does, as a function on values, and the object
    whose methods are those critical sections. */
module PoolEntries {

  datatype Entry = Entry(
    asset: int,
    dialedAt: int,
    lastUsed: int,
    refCount: int,
    closed: bool,       // retired: no further acquisition
    onceDone: bool,     // closeOnce has run
    connCloses: nat)    // how often the connection itself was closed
  {
    function Acquired(now: int): Entry {
      this.(refCount := refCount + 1, lastUsed := now)
    }

    function Released(now: int): Entry {
      this.(refCount := refCount - 1, lastUsed := now)
    }

    predicate IdleExpired(now: int, timeout: int) {
      !closed && refCount <= 0 && now - lastUsed > timeout
    }

    function Retired(): Entry {
      this.(closed := true)
    }

    /** Whether a refusal reported now retires the entry: judged after the decrement. */
    predicate RefusalRetires(now: int, minAge: int) {
      refCount - 1 <= 0 && now - dialedAt >= minAge
    }

    function Refused(now: int, minAge: int): Entry {
      if RefusalRetires(now, minAge) then Released(now).Retired() else Released(now)
    }

    function ConnClosed(): Entry {
      if onceDone then this else this.(onceDone := true, connCloses := connCloses + 1)
    }
  }

  function Dialed(asset: int, now: int): Entry {
    Entry(asset, now, now, 0, false, false, 0)
  }

  class PoolEntry {
    const asset: int
    const dialedAt: int
    var lastUsed: int
    var refCount: int
    var closed: bool
    var onceDone: bool
    var connCloses: nat

    ghost function Value(): Entry
      reads this
    {
      Entry(asset, dialedAt, lastUsed, refCount, closed, onceDone, connCloses)
    }

    constructor (asset: int, now: int)
      ensures Value() == Dialed(asset, now)
    {
      this.asset, dialedAt, lastUsed := asset, now, now;
      refCount, closed, onceDone, connCloses := 0, false, false, 0;
    }

    method TryAcquire(now: int) returns (ok: bool)
      modifies this
      ensures ok == !old(closed)
      ensures Value() == if ok then old(Value()).Acquired(now) else old(Value())
    {
      if closed {
        return false;
      }
      refCount := refCount + 1;
      lastUsed := now;
      return true;
    }

    method Release(now: int)
      modifies this
      ensures Value() == old(Value()).Released(now)
    {
      refCount := refCount - 1;
      lastUsed := now;
    }

    method RetireIfIdle(now: int, timeout: int) returns (retired: bool)
      modifies this
      ensures retired == old(Value()).IdleExpired(now, timeout)
      ensures Value() == if retired then old(Value()).Retired() else old(Value())
    {
      if closed || refCount > 0 || now - lastUsed <= timeout {
        return false;
      }
      closed := true;
      return true;
    }

    method RetireRefused(now: int, minAge: int) returns (retired: bool)
      modifies this
      ensures retired == old(Value()).RefusalRetires(now, minAge)
      ensures Value() == old(Value()).Refused(now, minAge)
    {
      refCount := refCount - 1;
      lastUsed := now;
      if refCount > 0 || now - dialedAt < minAge {
        return false;
      }
      closed := true;
      return true;
    }

    method CloseConn()
      modifies this
      ensures Value() == old(Value()).ConnClosed()
    {
      if !onceDone {
        onceDone := true;
        connCloses := connCloses + 1;
      }
    }

    method Close()
      modifies this
      ensures Value() == old(Value()).Retired().ConnClosed()
    {
      closed := true;
      CloseConn();
    }
  }
}
