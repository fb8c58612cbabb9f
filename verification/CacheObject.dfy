/** AssetConnCache as an object (internal/connpool/conncache.go): each method stated for a
    call that runs undisturbed. CacheMachine cuts the same methods into steps. */
module CacheObject {
  import opened CacheMachine

  class ConnEntry {
    const asset: int
    var lastUsed: int
    var holds: int
    var closes: nat

    constructor (asset: int, now: int)
      ensures this.asset == asset && lastUsed == now && holds == 0 && closes == 0
    {
      this.asset, lastUsed, holds, closes := asset, now, 0, 0;
    }

    /** closeEntry: the client and then its tunnel, once. */
    method Close()
      modifies this
      ensures closes == old(closes) + 1 && lastUsed == old(lastUsed) && holds == old(holds)
    {
      closes := closes + 1;
    }
  }

  /** What GetOrDial answers. */
  datatype Answer = Conn(entry: ConnEntry) | DialError | Invalid

  class AssetConnCache {
    var entries: map<Key, ConnEntry>
    var closeGen: nat
    var dropGen: map<int, nat>
    const idleTTL: int

    ghost predicate Valid()
      reads this, Objects()
    {
      && (forall k :: k in entries ==> entries[k].asset == k.asset)
      && (forall j, k :: j in entries && k in entries && j != k ==> entries[j] != entries[k])
    }

    function Objects(): set<ConnEntry>
      reads this
    {
      set k | k in entries :: entries[k]
    }

    function Gen(asset: int): nat
      reads this
    {
      closeGen + if asset in dropGen then dropGen[asset] else 0
    }

    constructor (idleTTL: int)
      ensures Valid() && entries == map[] && this.idleTTL == idleTTL
      ensures forall asset :: Gen(asset) == 0
    {
      entries, closeGen, dropGen := map[], 0, map[];
      this.idleTTL := idleTTL;
    }

    /** The locked end of a dial that began at generation gen: cached, or closed at once when
        the asset was invalidated since. */
    method Insert(key: Key, gen: nat, now: int) returns (answer: Answer)
      requires Valid() && key !in entries
      modifies this`entries
      ensures Valid()
      ensures answer.Conn? <==> Gen(key.asset) == gen
      ensures answer.Conn? ==> fresh(answer.entry) && entries == old(entries)[key := answer.entry]
      ensures answer.Conn? ==> answer.entry.lastUsed == now && answer.entry.holds == 0 && answer.entry.closes == 0
      ensures !answer.Conn? ==> answer.Invalid? && entries == old(entries)
    {
      var e := new ConnEntry(key.asset, now);
      if Gen(key.asset) != gen {
        e.Close();
        return Invalid;
      }
      entries := entries[key := e];
      return Conn(e);
    }

    method Hold(key: Key) returns (held: ConnEntry?)
      requires Valid()
      modifies Objects()
      ensures Valid() && entries == old(entries)
      ensures held == if key in entries then entries[key] else null
      ensures forall k :: k in entries ==>
        entries[k].holds == old(entries[k].holds) + (if k == key then 1 else 0)
        && entries[k].lastUsed == old(entries[k].lastUsed) && entries[k].closes == old(entries[k].closes)
    {
      if key !in entries {
        return null;
      }
      entries[key].holds := entries[key].holds + 1;
      return entries[key];
    }

    method Drop(key: Key)
      requires Valid()
      modifies this`entries, Objects()
      ensures Valid() && entries == old(entries) - {key}
      ensures key in old(entries) ==> old(entries)[key].closes == old(entries[key].closes) + 1
      ensures forall k :: k in entries ==> entries[k].closes == old(entries[k].closes)
    {
      if key in entries {
        var e := entries[key];
        entries := entries - {key};
        e.Close();
      }
    }

    /** Closes each entry of a set once. */
    method CloseAll(dropped: set<ConnEntry>)
      modifies dropped
      ensures forall e :: e in dropped ==>
              e.closes == old(e.closes) + 1 && e.lastUsed == old(e.lastUsed) && e.holds == old(e.holds)
    {
      var todo := dropped;
      while todo != {}
        invariant todo <= dropped
        invariant forall e :: e in dropped ==>
          && e.closes == old(e.closes) + (if e in todo then 0 else 1)
          && e.lastUsed == old(e.lastUsed) && e.holds == old(e.holds)
      {
        var e :| e in todo;
        e.Close();
        todo := todo - {e};
      }
    }

    /** The locked part of DropAsset. */
    method Unlink(asset: int) returns (dropped: set<ConnEntry>)
      requires Valid()
      modifies this
      ensures Valid()
      ensures entries == map k | k in old(entries) && k.asset != asset :: old(entries)[k]
      ensures dropped <= old(Objects())
      ensures forall k :: k in old(entries) ==> (old(entries)[k] in dropped <==> k.asset == asset)
      ensures forall x :: Gen(x) == old(Gen(x)) + if x == asset then 1 else 0
    {
      dropGen := dropGen[asset := (if asset in dropGen then dropGen[asset] else 0) + 1];
      dropped := set k | k in entries && entries[k].asset == asset :: entries[k];
      entries := map k | k in entries && entries[k].asset != asset :: entries[k];
    }

    /** Takes out and closes exactly the asset's entries; only its generation moves. */
    method DropAsset(asset: int)
      requires Valid()
      modifies this, Objects()
      ensures Valid()
      ensures entries == map k | k in old(entries) && k.asset != asset :: old(entries)[k]
      ensures forall k :: k in old(entries) ==>
        old(entries)[k].closes == old(entries[k].closes) + (if k.asset == asset then 1 else 0)
      ensures forall x :: Gen(x) == old(Gen(x)) + if x == asset then 1 else 0
    {
      var dropped := Unlink(asset);
      CloseAll(dropped);
    }

    method Close()
      requires Valid()
      modifies this, Objects()
      ensures Valid() && entries == map[]
      ensures forall k :: k in old(entries) ==> old(entries)[k].closes == old(entries[k].closes) + 1
      ensures forall x :: Gen(x) == old(Gen(x)) + 1
    {
      closeGen := closeGen + 1;
      var dropped := Objects();
      entries := map[];
      CloseAll(dropped);
    }

    /** Takes out and closes exactly the entries that are not held and were last used before
        now - idleTTL. */
    method EvictIdle(now: int)
      requires Valid()
      modifies this`entries, Objects()
      ensures Valid()
      ensures forall k :: k in entries <==>
        k in old(entries) && !(old(entries[k].holds) == 0 && old(entries[k].lastUsed) < now - idleTTL)
      ensures forall k :: k in entries ==> entries[k] == old(entries)[k]
      ensures forall k :: k in old(entries) ==>
        old(entries)[k].closes == old(entries[k].closes) + (if k in entries then 0 else 1)
    {
      var threshold := now - idleTTL;
      var stale: set<ConnEntry> := {};
      var todo := entries.Keys;
      while todo != {}
        modifies this`entries
        invariant todo <= old(entries).Keys
        invariant forall k :: k in entries <==>
          k in old(entries) && (k in todo || !(old(entries[k].holds) == 0 && old(entries[k].lastUsed) < threshold))
        invariant forall k :: k in entries ==> entries[k] == old(entries)[k]
        invariant stale <= old(Objects())
        invariant forall k :: k in old(entries) ==> (old(entries)[k] in stale <==> k !in entries)
      {
        var key :| key in todo;
        var e := entries[key];
        if e.holds == 0 && e.lastUsed < threshold {
          stale := stale + {e};
          entries := entries - {key};
        }
        todo := todo - {key};
      }
      CloseAll(stale);
    }
  }
}
