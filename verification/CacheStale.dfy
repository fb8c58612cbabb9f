/** Freshness is a property of the cached map, not of what GetOrDial returns: a call that
    begins after DropAsset can join a dial that has not quite ended, and gets its client. */
module CacheStale {
  import opened CacheMachine

  ghost predicate Reachable(idleTTL: int, t: State) {
    exists evs :: Run(idleTTL, Init(), evs, t)
  }

  lemma {:induction false} RunSnoc(idleTTL: int, s: State, evs: seq<Event>, t: State, ev: Event)
    requires Run(idleTTL, s, evs, t) && Enabled(t, ev)
    ensures Run(idleTTL, s, evs + [ev], Apply(idleTTL, t, ev))
    decreases |evs|
  {
    if evs == [] {
      assert evs + [ev] == [ev];
      assert Run(idleTTL, Apply(idleTTL, s, ev), [], Apply(idleTTL, t, ev));
    } else {
      RunSnoc(idleTTL, Apply(idleTTL, s, evs[0]), evs[1..], t, ev);
      assert (evs + [ev])[1..] == evs[1..] + [ev];
    }
  }

  lemma Reach(idleTTL: int, t: State, ev: Event, u: State)
    requires Reachable(idleTTL, t) && Enabled(t, ev) && u == Apply(idleTTL, t, ev)
    ensures Reachable(idleTTL, u)
  {
    var evs :| Run(idleTTL, Init(), evs, t);
    RunSnoc(idleTTL, Init(), evs, t, ev);
  }

  // The same, by the kind of step.

  lemma ReachUse(idleTTL: int, t: State, ev: Event, u: State)
    requires Reachable(idleTTL, t) && Uses(ev) && Enabled(t, ev) && u == Next(Use(t, ev))
    ensures Reachable(idleTTL, u)
  {
    Reach(idleTTL, t, ev, u);
  }

  lemma ReachFly(idleTTL: int, t: State, ev: Event, u: State)
    requires Reachable(idleTTL, t) && Flies(ev) && Enabled(t, ev) && u == Next(Fly(t, ev))
    ensures Reachable(idleTTL, u)
  {
    Reach(idleTTL, t, ev, u);
  }

  lemma ReachLookup(idleTTL: int, t: State, a: nat, key: Key)
    requires Reachable(idleTTL, t) && At(t, a) == GetLookup(key) && !t.locked && key !in t.entries
    ensures Reachable(idleTTL, Next(Move(t, a, GetJoin(key, Gen(t, key.asset), t.step))))
  {
    ReachUse(idleTTL, t, LookupStep(a), Next(Lookup(t, a)));
  }

  lemma ReachBegin(idleTTL: int, t: State, a: nat, pc: Pc)
    requires Reachable(idleTTL, t) && At(t, a).Done? && pc.Starts()
    ensures Reachable(idleTTL, Next(Move(t, a, pc)))
  {
    ReachUse(idleTTL, t, Begin(a, pc), Next(Move(t, a, pc)));
  }

  lemma DropAssetOnly(s: State, a: nat)
    requires Enabled(s, DropAssetStep(a)) && CachedIds(s) == CachedOf(s, At(s, a).asset)
    ensures var t := DiscardShared(s, DropAssetStep(a));
      && t.entries == map[]
      && t == Take(s, a, CachedIds(s)).(dropGen := t.dropGen, lastDrop := s.lastDrop[At(s, a).asset := s.step],
                                       invalidations := s.invalidations + [OfAsset(At(s, a).asset, s.step)])
  {
    assert forall k :: k in s.entries ==> s.entries[k] in CachedIds(s);
  }

  /** DropAsset of an asset that owns the whole cache. */
  lemma ReachDropAsset(idleTTL: int, t: State, a: nat) returns (u: State)
    requires Reachable(idleTTL, t) && Enabled(t, DropAssetStep(a)) && CachedIds(t) == CachedOf(t, At(t, a).asset)
    ensures Reachable(idleTTL, u)
    ensures u.entries == map[] && u.step == t.step + 1 && u.lastDrop == t.lastDrop[At(t, a).asset := t.step]
    ensures u.heap == Take(t, a, CachedIds(t)).heap
    ensures u.running == t.running && u.flights == t.flights && u.locked == t.locked
    ensures u.actors == t.actors[a := Drain(CachedIds(t))]
    ensures u.invalidations == t.invalidations + [OfAsset(At(t, a).asset, t.step)]
  {
    DropAssetOnly(t, a);
    u := Next(Discard(idleTTL, t, DropAssetStep(a)));
    Reach(idleTTL, t, DropAssetStep(a), u);
  }

  lemma ReachDrainClose(idleTTL: int, t: State, a: nat, i: nat)
    requires Reachable(idleTTL, t) && At(t, a).Drain? && i in At(t, a).close && i < |t.heap|
    ensures Reachable(idleTTL, Next(Move(SetEntry(t, i, CloseEntry(t.heap[i])), a, Drain(At(t, a).close - {i}))))
  {
    Reach(idleTTL, t, DrainClose(a, i), Next(Discard(idleTTL, t, DrainClose(a, i))));
  }

  lemma MoveAgain(s: State, a: nat, p: Pc, q: Pc)
    ensures Next(Move(Next(Move(s, a, p)), a, q)) == Move(s, a, q).(step := s.step + 2)
  {
    assert s.actors[a := p][a := q] == s.actors[a := q];
  }

  /** A GetOrDial of actor a that misses the cache. */
  lemma Misses(idleTTL: int, s: State, a: nat, key: Key) returns (t: State)
    requires Reachable(idleTTL, s) && At(s, a).Done? && !s.locked && key !in s.entries
    ensures Reachable(idleTTL, t)
    ensures t == Move(s, a, GetJoin(key, Gen(s, key.asset), s.step + 1)).(step := s.step + 2)
  {
    var t0 := Next(Move(s, a, GetLookup(key)));
    ReachBegin(idleTTL, s, a, GetLookup(key));
    t := Next(Move(t0, a, GetJoin(key, Gen(t0, key.asset), t0.step)));
    ReachLookup(idleTTL, t0, a, key);
    MoveAgain(s, a, GetLookup(key), GetJoin(key, Gen(t0, key.asset), t0.step));
  }

  const K := Key(1, "db")

  /** Actor 0 dials K, ... */
  lemma DialStarts(idleTTL: int) returns (t: State)
    ensures Reachable(idleTTL, t)
    ensures t == Init().(step := 5, running := map[K := 0], flights := [Flight(K, 0, 2, FDial(4))],
                         actors := map[0 := GetWait(K, 0)])
  {
    assert Run(idleTTL, Init(), [], Init());
    var t1 := Misses(idleTTL, Init(), 0, K);
    var t2 := t1.(step := 4, running := map[K := 0], flights := [Flight(K, 0, 2, FCheck)],
                  actors := map[0 := GetWait(K, 0)]);
    ReachUse(idleTTL, t1, JoinStep(0), t2);
    t := t2.(step := 5, flights := [Flight(K, 0, 2, FDial(4))]);
    ReachFly(idleTTL, t2, FlightCheck(0), t);
  }

  /** ... the connection is cached, the call not yet over. */
  lemma DialCached(idleTTL: int) returns (t: State)
    ensures Reachable(idleTTL, t)
    ensures t == Init().(step := 7, entries := map[K := 0], heap := [Entry(K, 0, 0, 0, 4, 0, Cached)],
                         running := map[K := 0], flights := [Flight(K, 0, 2, FReturn(Client(0), 6))],
                         actors := map[0 := GetWait(K, 0)])
  {
    var t0 := DialStarts(idleTTL);
    var t1 := t0.(step := 6, heap := [Entry(K, 0, 0, 0, 4, 0, WithFlight(0))],
                  flights := [Flight(K, 0, 2, FInsert(0))]);
    ReachFly(idleTTL, t0, DialOk(0), t1);
    t := t1.(step := 7, entries := map[K := 0], heap := [Entry(K, 0, 0, 0, 4, 0, Cached)],
             flights := [Flight(K, 0, 2, FReturn(Client(0), 6))]);
    ReachFly(idleTTL, t1, FlightInsert(0), t);
  }

  lemma OneCached(s: State, i: nat)
    requires s.entries == map[K := i] && i < |s.heap| && s.heap[i].key == K
    ensures CachedOf(s, K.asset) == CachedIds(s) == {i}
  {
    assert K in s.entries && s.entries[K] == i;
  }

  /** Actor 1 invalidates asset 1 ... */
  lemma DropBegins(idleTTL: int) returns (t: State)
    ensures Reachable(idleTTL, t)
    ensures t.step == 8 && t.lastDrop == map[] && t.entries == map[K := 0] && t.running == map[K := 0] && !t.locked
    ensures t.heap == [Entry(K, 0, 0, 0, 4, 0, Cached)] && t.flights == [Flight(K, 0, 2, FReturn(Client(0), 6))]
    ensures t.actors == map[0 := GetWait(K, 0), 1 := DropAssetAt(1)]
  {
    var t0 := DialCached(idleTTL);
    t := Next(Move(t0, 1, DropAssetAt(1)));
    ReachBegin(idleTTL, t0, 1, DropAssetAt(1));
  }

  lemma Unlinked(idleTTL: int) returns (t: State)
    ensures Reachable(idleTTL, t)
    ensures t.step == 9 && t.lastDrop == map[1 := 8] && t.entries == map[] && t.running == map[K := 0] && !t.locked
    ensures t.heap == [Entry(K, 0, 0, 0, 4, 0, WithCloser(1))] && t.flights == [Flight(K, 0, 2, FReturn(Client(0), 6))]
    ensures t.actors == map[0 := GetWait(K, 0), 1 := Drain({0})]
  {
    var t0 := DropBegins(idleTTL);
    OneCached(t0, 0);
    t := ReachDropAsset(idleTTL, t0, 1);
  }

  /** ... and closes the connection. */
  lemma ConnectionClosed(idleTTL: int) returns (t: State)
    ensures Reachable(idleTTL, t)
    ensures t.step == 10 && t.lastDrop == map[1 := 8] && t.entries == map[] && t.running == map[K := 0] && !t.locked
    ensures t.heap == [Entry(K, 0, 0, 1, 4, 0, Closed)] && t.flights == [Flight(K, 0, 2, FReturn(Client(0), 6))]
    ensures At(t, 0) == GetWait(K, 0) && At(t, 2).Done?
  {
    var t0 := Unlinked(idleTTL);
    ReachDrainClose(idleTTL, t0, 1, 0);
    t := Next(Move(SetEntry(t0, 0, CloseEntry(t0.heap[0])), 1, Drain(At(t0, 1).close - {0})));
  }

  /** Actor 2 calls GetOrDial after that and is handed the closed connection. */
  lemma LateCallerGetsClosedClient(idleTTL: int) returns (s: State, t: State)
    ensures Reachable(idleTTL, s) && At(s, 2).Done? && LastDrop(s, K.asset) < s.step
    ensures Reachable(idleTTL, t) && s.step < t.step
    ensures At(t, 2) == GetWait(K, 0) && Enabled(t, WaitStep(2)) && t.flights[0].pc.r == Client(0)
    ensures |t.heap| == 1 && t.heap[0].closes == 1 && t.heap[0].dialedAt < LastDrop(t, K.asset)
  {
    s := ConnectionClosed(idleTTL);
    var t2 := Misses(idleTTL, s, 2, K);
    var t3 := Move(t2, 2, GetWait(K, 0)).(step := 13);
    ReachUse(idleTTL, t2, JoinStep(2), t3);
    t := t3.(step := 14, running := map[], flights := [Flight(K, 0, 2, FDone(Client(0), 6))]);
    ReachFly(idleTTL, t3, FlightEnd(0), t);
  }
}
