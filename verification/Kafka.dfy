/** KafkaClientManager (internal/connpool/kafka.go): clients shared by reference count, closed
    only when evicted and unused, with a bound on how many stay cached. One step is one
    critical section of the manager's mutex, or one client.Close() outside it, so what every
    step keeps holds at every unlock of every interleaving of any number of callers. */
module Kafka {

  datatype Key = Key(asset: int, fingerprint: string)

  /** closes counts the calls of client.Close(). */
  datatype Entry = Entry(key: Key, lastUsed: int, refs: int, closing: bool, closes: nat)
  {
    function Borrowed(now: int): Entry {
      this.(lastUsed := now, refs := refs + 1)
    }

    /** Evicted, and closed on the spot when nobody holds it. */
    function EvictedAndClosed(): Entry {
      if refs == 0 then this.(closing := true, closes := closes + 1) else this.(closing := true)
    }

    predicate Stale(asset: int, fingerprint: string, now: int, ttl: int) {
      now - lastUsed > ttl || (key.asset == asset && key.fingerprint != fingerprint)
    }
  }

  /** clients is the manager's map; heap holds every client ever dialed, by identity, with its
      entry; a client that lost the race to be published never gets one and stands here as
      closing from the start. The borrows of each entry not yet released, and the clients some
      caller has unlocked to close, are history. */
  datatype Manager = Manager(clients: map<Key, nat>, heap: seq<Entry>, borrows: seq<nat>, pending: set<nat>)

  ghost predicate MapOk(m: Manager) {
    |m.borrows| == |m.heap|
    && (forall i :: i in m.pending ==> i < |m.heap|)
    && forall k :: k in m.clients ==> m.clients[k] < |m.heap| && m.heap[m.clients[k]].key == k
  }

  /** An entry is in the map exactly until it is closing, its refs are its outstanding
      borrows, and its client is closed once it is closing without refs, never before. */
  ghost predicate EntryOk(m: Manager, i: nat)
    requires |m.borrows| == |m.heap| && i < |m.heap|
  {
    var e := m.heap[i];
    && (!e.closing <==> e.key in m.clients && m.clients[e.key] == i)
    && e.refs == m.borrows[i]
    && (i in m.pending ==> e.closing && e.refs == 0)
    && e.closes == (if e.closing && e.refs == 0 && i !in m.pending then 1 else 0)
  }

  ghost predicate Inv(m: Manager) {
    MapOk(m) && forall i :: 0 <= i < |m.heap| ==> EntryOk(m, i)
  }

  const EMPTY := Manager(map[], [], [], {})

  // What each critical section does.

  function Ids(m: Manager, keys: set<Key>): set<nat> {
    set k | k in keys && k in m.clients :: m.clients[k]
  }

  /** The entries under `gone` leave the map, closed at once when unused. */
  function Evict(m: Manager, gone: set<Key>): Manager {
    var ids := Ids(m, gone);
    m.(clients := m.clients - gone,
       heap := seq(|m.heap|, i requires 0 <= i < |m.heap| =>
                      if i in ids then m.heap[i].EvictedAndClosed() else m.heap[i]))
  }

  /** The entries under `gone` leave the map; the unused ones are left to the caller. */
  function Mark(m: Manager, gone: set<Key>): Manager {
    var ids := Ids(m, gone);
    m.(clients := m.clients - gone,
       heap := seq(|m.heap|, i requires 0 <= i < |m.heap| =>
                      if i in ids then m.heap[i].(closing := true) else m.heap[i]),
       pending := m.pending + set i | i in ids && i < |m.heap| && m.heap[i].refs == 0)
  }

  function StaleKeys(m: Manager, key: Key, now: int, ttl: int): set<Key>
    requires MapOk(m)
  {
    set k | k in m.clients && m.heap[m.clients[k]].Stale(key.asset, key.fingerprint, now, ttl)
  }

  function Borrow(m: Manager, i: nat, now: int): Manager
    requires MapOk(m) && i < |m.heap|
  {
    m.(heap := m.heap[i := m.heap[i].Borrowed(now)], borrows := m.borrows[i := m.borrows[i] + 1])
  }

  function Publish(m: Manager, key: Key, now: int): Manager {
    m.(clients := m.clients[key := |m.heap|], heap := m.heap + [Entry(key, now, 1, false, 0)],
       borrows := m.borrows + [1])
  }

  /** The dialed client of a key another caller has published meanwhile: its dialer closes it. */
  function Surplus(m: Manager, key: Key, now: int): Manager {
    m.(heap := m.heap + [Entry(key, now, 0, true, 0)], borrows := m.borrows + [0], pending := m.pending + {|m.heap|})
  }

  function Release(m: Manager, i: nat): Manager
    requires MapOk(m) && i < |m.heap| && m.borrows[i] > 0
  {
    var e := m.heap[i].(refs := m.heap[i].refs - 1);
    m.(heap := m.heap[i := e], borrows := m.borrows[i := m.borrows[i] - 1],
       pending := if e.closing && e.refs == 0 then m.pending + {i} else m.pending)
  }

  function ClosePending(m: Manager, i: nat): Manager
    requires i in m.pending && i < |m.heap|
  {
    m.(heap := m.heap[i := m.heap[i].(closes := m.heap[i].closes + 1)], pending := m.pending - {i})
  }

  /** `gone` brings the map down to max entries, least recently used first. */
  ghost predicate Overflow(m: Manager, gone: set<Key>, max: nat)
    requires MapOk(m)
  {
    && gone <= m.clients.Keys
    && |m.clients - gone| == (if |m.clients| > max then max else |m.clients|)
    && OldestFirst(m, gone)
  }

  ghost predicate OldestFirst(m: Manager, gone: set<Key>)
    requires MapOk(m)
  {
    forall j, k :: j in gone && j in m.clients && k in m.clients && k !in gone ==>
      m.heap[m.clients[j]].lastUsed <= m.heap[m.clients[k]].lastUsed
  }

  // Every one of them keeps the invariant.

  lemma EvictKeepsInv(m: Manager, gone: set<Key>)
    requires Inv(m)
    ensures Inv(Evict(m, gone))
  {
    var t := Evict(m, gone);
    forall i | 0 <= i < |t.heap|
      ensures EntryOk(t, i)
    {
      assert EntryOk(m, i);
    }
  }

  lemma MarkKeepsInv(m: Manager, gone: set<Key>)
    requires Inv(m)
    ensures Inv(Mark(m, gone))
  {
    var t := Mark(m, gone);
    forall i | 0 <= i < |t.heap|
      ensures EntryOk(t, i)
    {
      assert EntryOk(m, i);
    }
  }

  lemma BorrowKeepsInv(m: Manager, k: Key, now: int)
    requires Inv(m) && k in m.clients
    ensures Inv(Borrow(m, m.clients[k], now))
  {
    var t := Borrow(m, m.clients[k], now);
    forall i | 0 <= i < |t.heap|
      ensures EntryOk(t, i)
    {
      assert EntryOk(m, i);
    }
  }

  lemma PublishKeepsInv(m: Manager, key: Key, now: int)
    requires Inv(m) && key !in m.clients
    ensures Inv(Publish(m, key, now))
  {
    var t := Publish(m, key, now);
    forall i | 0 <= i < |t.heap|
      ensures EntryOk(t, i)
    {
      assert i < |m.heap| ==> EntryOk(m, i);
    }
  }

  lemma SurplusKeepsInv(m: Manager, key: Key, now: int)
    requires Inv(m)
    ensures Inv(Surplus(m, key, now))
  {
    var t := Surplus(m, key, now);
    forall i | 0 <= i < |t.heap|
      ensures EntryOk(t, i)
    {
      assert i < |m.heap| ==> EntryOk(m, i);
    }
  }

  lemma ReleaseKeepsInv(m: Manager, i: nat)
    requires Inv(m) && i < |m.heap| && m.borrows[i] > 0
    ensures Inv(Release(m, i))
    ensures m.heap[i].refs == m.borrows[i] && i !in m.pending
  {
    var t := Release(m, i);
    assert EntryOk(m, i);
    forall j | 0 <= j < |t.heap|
      ensures EntryOk(t, j)
    {
      assert EntryOk(m, j);
    }
  }

  lemma ClosePendingKeepsInv(m: Manager, i: nat)
    requires Inv(m) && i in m.pending
    ensures i < |m.heap| && Inv(ClosePending(m, i)) && m.heap[i].closes == 0
  {
    var t := ClosePending(m, i);
    assert EntryOk(m, i);
    forall j | 0 <= j < |t.heap|
      ensures EntryOk(t, j)
    {
      assert EntryOk(m, j);
    }
  }

  // Runs of any callers.

  datatype Step =
    | AcquireFirst(key: Key, now: int)
    | AcquireSecond(key: Key, now: int, gone: set<Key>)
    | ReleaseStep(i: nat)
    | CloseStep(i: nat)
    | DropAsset(asset: int)
    | DropAll

  datatype Config = Config(ttl: int, max: nat)

  function AssetKeys(m: Manager, asset: int): set<Key> {
    set k | k in m.clients && k.asset == asset
  }

  ghost predicate Allowed(c: Config, m: Manager, step: Step) {
    MapOk(m) &&
    match step
    case AcquireFirst(_, _) => true
    case AcquireSecond(key, now, gone) =>
      if key in m.clients then gone == {}
             else MapOk(Publish(m, key, now)) && Overflow(Publish(m, key, now), gone, c.max)
    case ReleaseStep(i) => i < |m.heap| && m.borrows[i] > 0
    case CloseStep(i) => i in m.pending
    case DropAsset(_) => true
    case DropAll => true
  }

  ghost function Do(c: Config, m: Manager, step: Step): Manager
    requires Allowed(c, m, step)
  {
    match step
    case AcquireFirst(key, now) =>
      var t := Evict(m, StaleKeys(m, key, now, c.ttl));
      if key in t.clients then Hit(t, key, now) else t
    case AcquireSecond(key, now, gone) =>
      if key in m.clients then Surplus(Hit(m, key, now), key, now) else Evict(Publish(m, key, now), gone)
    case ReleaseStep(i) => Release(m, i)
    case CloseStep(i) => ClosePending(m, i)
    case DropAsset(asset) => Mark(m, AssetKeys(m, asset))
    case DropAll => Mark(m, m.clients.Keys)
  }

  ghost function Hit(m: Manager, key: Key, now: int): Manager
    requires key in m.clients
  {
    if MapOk(m) then Borrow(m, m.clients[key], now) else m
  }

  lemma SubsetIsSmaller(a: set<Key>, b: set<Key>)
    requires a <= b
    ensures |a| <= |b|
  {
    assert b == a + (b - a);
  }

  lemma StepKeepsInv(c: Config, m: Manager, step: Step)
    requires Inv(m) && |m.clients| <= c.max && Allowed(c, m, step)
    ensures Inv(Do(c, m, step)) && |Do(c, m, step).clients| <= c.max
  {
    match step
    case AcquireFirst(key, now) =>
      var gone := StaleKeys(m, key, now, c.ttl);
      EvictKeepsInv(m, gone);
      SubsetIsSmaller((m.clients - gone).Keys, m.clients.Keys);
      if key in Evict(m, gone).clients {
        BorrowKeepsInv(Evict(m, gone), key, now);
      }
    case AcquireSecond(key, now, gone) =>
      if key in m.clients {
        BorrowKeepsInv(m, key, now);
        SurplusKeepsInv(Hit(m, key, now), key, now);
      } else {
        PublishKeepsInv(m, key, now);
        EvictKeepsInv(Publish(m, key, now), gone);
      }
    case ReleaseStep(i) => ReleaseKeepsInv(m, i);
    case CloseStep(i) => ClosePendingKeepsInv(m, i);
    case DropAsset(asset) =>
      MarkKeepsInv(m, AssetKeys(m, asset));
      SubsetIsSmaller((m.clients - AssetKeys(m, asset)).Keys, m.clients.Keys);
    case DropAll =>
      MarkKeepsInv(m, m.clients.Keys);
      assert (m.clients - m.clients.Keys).Keys == {};
  }

  ghost predicate Run(c: Config, m: Manager, steps: seq<Step>, t: Manager)
    decreases |steps|
  {
    if steps == [] then m == t else Allowed(c, m, steps[0]) && Run(c, Do(c, m, steps[0]), steps[1..], t)
  }

  lemma {:induction false} RunKeepsInv(c: Config, m: Manager, steps: seq<Step>, t: Manager)
    requires Inv(m) && |m.clients| <= c.max && Run(c, m, steps, t)
    ensures Inv(t) && |t.clients| <= c.max
    decreases |steps|
  {
    if steps != [] {
      StepKeepsInv(c, m, steps[0]);
      RunKeepsInv(c, Do(c, m, steps[0]), steps[1..], t);
    }
  }

  /** Main result: after any run, whether of a new manager or from any valid state, the map holds
      at most max entries; an entry is in it iff it is not closing; refs are the outstanding
      borrows; and a client has been closed at most once, only when its entry was closing and
      unused — once nothing is pending, exactly then. */
  lemma ClosedExactlyWhenUnused(c: Config, m: Manager, steps: seq<Step>, t: Manager, i: nat)
    requires Inv(m) && |m.clients| <= c.max && Run(c, m, steps, t) && i < |t.heap|
    ensures |t.clients| <= c.max && |t.borrows| == |t.heap|
    ensures !t.heap[i].closing <==> t.heap[i].key in t.clients && t.clients[t.heap[i].key] == i
    ensures t.heap[i].refs == t.borrows[i]
    ensures t.heap[i].closes <= 1
    ensures t.heap[i].closes == 1 ==> t.heap[i].closing && t.borrows[i] == 0
    ensures t.pending == {} && t.heap[i].closing && t.borrows[i] == 0 ==> t.heap[i].closes == 1
  {
    RunKeepsInv(c, m, steps, t);
    assert EntryOk(t, i);
  }

  /** At rest, with no borrow outstanding and nothing left to close, a manager that started empty has closed
      every client it ever dialed except those in the map, each of them once. */
  lemma AtRestOnlyTheMapIsOpen(c: Config, steps: seq<Step>, t: Manager, i: nat)
    requires Run(c, EMPTY, steps, t) && t.pending == {} && i < |t.heap|
    requires forall j :: 0 <= j < |t.borrows| ==> t.borrows[j] == 0
    ensures t.heap[i].closes == if t.heap[i].key in t.clients && t.clients[t.heap[i].key] == i then 0 else 1
  {
    ClosedExactlyWhenUnused(c, EMPTY, steps, t, i);
  }

  // The manager itself.

  class KafkaClientManager {
    const ttl: int
    const max: nat
    var clients: map<Key, nat>
    var heap: seq<Entry>
    ghost var borrows: seq<nat>
    ghost var pending: set<nat>

    ghost function Value(): Manager
      reads this
    {
      Manager(clients, heap, borrows, pending)
    }

    function Settings(): Config {
      Config(ttl, max)
    }

    ghost predicate Valid()
      reads this
    {
      Inv(Value()) && |clients| <= max
    }

    constructor (ttl: int, max: nat)
      ensures Valid() && Value() == EMPTY && Settings() == Config(ttl, max)
    {
      this.ttl, this.max := ttl, max;
      clients, heap, borrows, pending := map[], [], [], {};
    }

    /** closing = true; delete(clients, key); close at once when unused. */
    method EvictLocked(key: Key)
      requires Inv(Value()) && key in clients
      modifies this`clients, this`heap
      ensures Inv(Value()) && Value() == Evict(old(Value()), {key})
    {
      EvictKeepsInv(Value(), {key});
      var i := clients[key];
      heap := heap[i := heap[i].(closing := true)];
      clients := clients - {key};
      if heap[i].refs == 0 {
        heap := heap[i := heap[i].(closes := heap[i].closes + 1)];
      }
      assert Ids(old(Value()), {key}) == {i};
      assert heap == Evict(old(Value()), {key}).heap;
    }

    /** Evicts exactly the entries unused for longer than ttl and the asset's entries with
        another configuration. */
    method CloseStaleLocked(key: Key, now: int)
      requires Inv(Value())
      modifies this`clients, this`heap
      ensures Inv(Value()) && Value() == Evict(old(Value()), StaleKeys(old(Value()), key, now, ttl))
    {
      var todo := clients.Keys;
      ghost var m := Value();
      ghost var stale, gone := StaleKeys(m, key, now, ttl), {};
      EvictNothing(m);
      while todo != {}
        invariant todo <= clients.Keys && Inv(Value())
        invariant gone == stale - todo && Value() == Evict(m, gone)
      {
        var k :| k in todo;
        StillThere(m, gone, k);
        if heap[clients[k]].Stale(key.asset, key.fingerprint, now, ttl) {
          EvictLocked(k);
          EvictMore(m, gone, k);
          gone := gone + {k};
        }
        todo := todo - {k};
      }
    }

    /** The key of a least recently used entry. */
    method Oldest() returns (oldest: Key)
      requires MapOk(Value()) && clients != map[]
      ensures oldest in clients
      ensures forall k :: k in clients ==> heap[clients[oldest]].lastUsed <= heap[clients[k]].lastUsed
    {
      var todo := clients.Keys;
      oldest :| oldest in todo;
      todo := todo - {oldest};
      while todo != {}
        invariant todo <= clients.Keys && oldest in clients
        invariant forall k :: k in clients && k !in todo ==> heap[clients[oldest]].lastUsed <= heap[clients[k]].lastUsed
      {
        var k :| k in todo;
        if heap[clients[k]].lastUsed < heap[clients[oldest]].lastUsed {
          oldest := k;
        }
        todo := todo - {k};
      }
    }

    /** Evicts down to max entries, and nothing that was used later than an entry it keeps. */
    method EvictOverflowLocked() returns (ghost gone: set<Key>)
      requires Inv(Value())
      modifies this`clients, this`heap
      ensures Inv(Value()) && Overflow(old(Value()), gone, max) && Value() == Evict(old(Value()), gone)
    {
      ghost var m := Value();
      gone := {};
      EvictNothing(m);
      while |clients| > max
        invariant Inv(Value()) && gone <= m.clients.Keys && Value() == Evict(m, gone) && OldestFirst(m, gone)
        invariant |clients| <= |m.clients| && (|clients| == |m.clients| || |clients| >= max)
        decreases |clients|
      {
        var k := EvictOldest(m, gone);
        gone := gone + {k};
      }
    }

    /** One round of it: m is the manager before the first round. */
    method EvictOldest(ghost m: Manager, ghost gone: set<Key>) returns (oldest: Key)
      requires Inv(Value()) && clients != map[]
      requires Inv(m) && gone <= m.clients.Keys && Value() == Evict(m, gone) && OldestFirst(m, gone)
      modifies this`clients, this`heap
      ensures oldest in m.clients && oldest !in gone
      ensures Inv(Value()) && Value() == Evict(m, gone + {oldest}) && OldestFirst(m, gone + {oldest})
      ensures |clients| == |old(clients)| - 1
    {
      oldest := Oldest();
      AllStillThere(m, gone);
      ghost var before := clients.Keys;
      EvictLocked(oldest);
      assert before == clients.Keys + {oldest};
      EvictMore(m, gone, oldest);
    }

    /** One more borrow of the entry under a key. */
    method BorrowLocked(key: Key, now: int)
      requires MapOk(Value()) && key in clients
      modifies this`heap, this`borrows
      ensures Value() == Borrow(old(Value()), clients[key], now)
    {
      var i := clients[key];
      heap := heap[i := heap[i].(lastUsed := now, refs := heap[i].refs + 1)];
      borrows := borrows[i := borrows[i] + 1];
    }

    /** The first critical section of Acquire: stale entries go, a hit is borrowed. */
    method AcquireCached(key: Key, now: int) returns (hit: bool)
      requires Valid()
      modifies this
      ensures Valid() && Value() == Do(Settings(), old(Value()), AcquireFirst(key, now))
      ensures hit <==> key in old(clients) && key !in StaleKeys(old(Value()), key, now, ttl)
    {
      StepKeepsInv(Settings(), Value(), AcquireFirst(key, now));
      CloseStaleLocked(key, now);
      hit := key in clients;
      if hit {
        BorrowLocked(key, now);
      }
    }

    /** The second critical section of Acquire, after a dial: when another caller published the
        key meanwhile its entry is borrowed and the dialed client is surplus, for the caller to
        close. The time of use is the one read before the dial, so the new entry itself may be
        the one to go. */
    method AcquireDialed(key: Key, now: int) returns (surplus: bool, ghost gone: set<Key>)
      requires Valid()
      modifies this
      ensures Valid() && (surplus <==> key in old(clients))
      ensures Allowed(Settings(), old(Value()), AcquireSecond(key, now, gone))
      ensures Value() == Do(Settings(), old(Value()), AcquireSecond(key, now, gone))
    {
      surplus, gone := key in clients, {};
      if surplus {
        BorrowKeepsInv(Value(), key, now);
        BorrowLocked(key, now);
        SurplusKeepsInv(Value(), key, now);
        pending := pending + {|heap|};
        heap := heap + [Entry(key, now, 0, true, 0)];
        borrows := borrows + [0];
      } else {
        PublishKeepsInv(Value(), key, now);
        clients := clients[key := |heap|];
        heap := heap + [Entry(key, now, 1, false, 0)];
        borrows := borrows + [1];
        gone := EvictOverflowLocked();
      }
    }

    /** The locked part of a release function; true means the caller now has to close. */
    method ReleaseLocked(i: nat) returns (shouldClose: bool)
      requires Valid() && i < |heap| && borrows[i] > 0
      modifies this
      ensures Valid() && Value() == Do(Settings(), old(Value()), ReleaseStep(i))
      ensures shouldClose <==> old(heap[i].closing) && old(borrows[i]) == 1
    {
      ReleaseKeepsInv(Value(), i);
      heap := heap[i := heap[i].(refs := heap[i].refs - 1)];
      shouldClose := heap[i].closing && heap[i].refs == 0;
      borrows := borrows[i := borrows[i] - 1];
      if shouldClose {
        pending := pending + {i};
      }
    }

    /** client.Close() after the unlock. */
    method CloseClient(i: nat)
      requires Valid() && i in pending
      modifies this
      ensures Valid() && Value() == Do(Settings(), old(Value()), CloseStep(i))
    {
      ClosePendingKeepsInv(Value(), i);
      heap := heap[i := heap[i].(closes := heap[i].closes + 1)];
      pending := pending - {i};
    }

    /** The locked part of CloseAsset; the entries returned are closed after the unlock. */
    method CloseAssetLocked(asset: int) returns (toClose: set<nat>)
      requires Valid()
      modifies this
      ensures Valid() && Value() == Do(Settings(), old(Value()), DropAsset(asset))
      ensures pending == old(pending) + toClose
    {
      StepKeepsInv(Settings(), Value(), DropAsset(asset));
      toClose := MarkAll(set k | k in clients && k.asset == asset);
    }

    /** The locked part of Close. */
    method CloseLocked() returns (toClose: set<nat>)
      requires Valid()
      modifies this
      ensures Valid() && Value() == Do(Settings(), old(Value()), DropAll)
      ensures pending == old(pending) + toClose && clients == map[]
    {
      StepKeepsInv(Settings(), Value(), DropAll);
      toClose := MarkAll(clients.Keys);
      assert clients.Keys == {};
    }

    /** One entry leaves the map; an unused one is handed back to be closed. */
    method MarkOne(k: Key) returns (idle: set<nat>)
      requires k in clients && clients[k] < |heap|
      modifies this`clients, this`heap, this`pending
      ensures heap == old(heap[clients[k] := heap[clients[k]].(closing := true)]) && clients == old(clients) - {k}
      ensures idle == (if old(heap[clients[k]].refs) == 0 then {old(clients[k])} else {})
      ensures pending == old(pending) + idle
    {
      var i := clients[k];
      heap := heap[i := heap[i].(closing := true)];
      clients := clients - {k};
      idle := if heap[i].refs == 0 then {i} else {};
      pending := pending + idle;
    }

    method MarkAll(keys: set<Key>) returns (toClose: set<nat>)
      requires Inv(Value()) && keys <= clients.Keys
      modifies this
      ensures Value() == Mark(old(Value()), keys)
      ensures pending == old(pending) + toClose
    {
      ghost var m := Value();
      var todo := keys;
      toClose := {};
      MarkNothing(m);
      while todo != {}
        invariant todo <= keys && Value() == Mark(m, keys - todo)
        invariant pending == old(pending) + toClose
      {
        var k :| k in todo;
        MarkMore(m, keys - todo, k);
        var idle := MarkOne(k);
        toClose := toClose + idle;
        assert keys - todo + {k} == keys - (todo - {k});
        todo := todo - {k};
      }
      assert keys - {} == keys;
    }
  }

  // One eviction after another is one eviction of the set.

  lemma EvictNothing(m: Manager)
    ensures Evict(m, {}) == m
  {
    assert Evict(m, {}).heap == m.heap;
  }

  lemma MarkNothing(m: Manager)
    ensures Mark(m, {}) == m && forall keys: set<Key> :: keys - keys == {}
  {
    assert Mark(m, {}).heap == m.heap;
    assert Mark(m, {}).pending == m.pending;
  }

  lemma StillThere(m: Manager, gone: set<Key>, k: Key)
    requires Inv(m) && gone <= m.clients.Keys && k in m.clients && k !in gone
    ensures m.clients[k] !in Ids(m, gone) && Evict(m, gone).heap[m.clients[k]] == m.heap[m.clients[k]]
  {
  }

  lemma AllStillThere(m: Manager, gone: set<Key>)
    requires Inv(m) && gone <= m.clients.Keys
    ensures forall k :: k in m.clients && k !in gone ==> Evict(m, gone).heap[m.clients[k]] == m.heap[m.clients[k]]
  {
    forall k | k in m.clients && k !in gone
      ensures Evict(m, gone).heap[m.clients[k]] == m.heap[m.clients[k]]
    {
      StillThere(m, gone, k);
    }
  }

  lemma EvictMore(m: Manager, gone: set<Key>, k: Key)
    requires Inv(m) && gone <= m.clients.Keys && k in m.clients && k !in gone
    ensures Evict(Evict(m, gone), {k}) == Evict(m, gone + {k})
  {
    StillThere(m, gone, k);
    assert Ids(m, gone + {k}) == Ids(m, gone) + {m.clients[k]};
    assert Ids(Evict(m, gone), {k}) == {m.clients[k]};
    assert Evict(Evict(m, gone), {k}).heap == Evict(m, gone + {k}).heap;
    assert Evict(Evict(m, gone), {k}).clients == Evict(m, gone + {k}).clients;
  }

  lemma MarkMore(m: Manager, gone: set<Key>, k: Key)
    requires Inv(m) && gone <= m.clients.Keys && k in m.clients && k !in gone
    ensures var i, t, u := m.clients[k], Mark(m, gone), Mark(m, gone + {k});
      && i < |t.heap| && k in t.clients && t.clients[k] == i
      && u.clients == t.clients - {k}
      && u.heap == t.heap[i := t.heap[i].(closing := true)]
      && u.pending == (if t.heap[i].refs == 0 then t.pending + {i} else t.pending)
  {
    StillThere(m, gone, k);
    assert Ids(m, gone + {k}) == Ids(m, gone) + {m.clients[k]};
  }
}
