/** Where every connection of an AssetConnCache is, in any interleaving. */
module CacheSafety {
  import opened CacheMachine

  ghost predicate MapInv(s: State) {
    forall k :: k in s.entries ==>
      s.entries[k] < |s.heap| && s.heap[s.entries[k]].key == k && s.heap[s.entries[k]].place == Cached
  }

  ghost predicate Carries(s: State, f: nat, i: nat) {
    f < |s.flights| && (s.flights[f].pc == FInsert(i) || s.flights[f].pc == FDiscard(i))
  }

  ghost predicate PlaceInv(s: State, i: nat)
    requires i < |s.heap|
  {
    var e := s.heap[i];
    && (e.place.WithFlight? ==> Carries(s, e.place.f, i))
    && (e.place.Cached? ==> e.key in s.entries && s.entries[e.key] == i)
    && (e.place.WithCloser? ==> i in At(s, e.place.a).ToClose())
    && e.closes == (if e.place.Closed? then 1 else 0)
  }

  ghost predicate FlightInv(s: State, f: nat)
    requires f < |s.flights|
  {
    var fl := s.flights[f];
    && (!fl.pc.FDone? ==> fl.key in s.running && s.running[fl.key] == f)
    && (fl.pc.FDial? || fl.pc.FInsert? ==> fl.key !in s.entries)
    && (fl.pc.FInsert? || fl.pc.FDiscard? ==>
          fl.pc.e < |s.heap| && s.heap[fl.pc.e].key == fl.key && s.heap[fl.pc.e].place == WithFlight(f))
  }

  ghost predicate PcInv(s: State, a: nat, pc: Pc) {
    && (forall i :: i in pc.ToClose() ==> i < |s.heap| && s.heap[i].place == WithCloser(a))
    && (pc.Locks() ==> s.locked && pc.todo <= s.entries.Keys)
    && (pc.EvictRead? ==> pc.key in s.entries && pc.key !in pc.todo)
    && (pc.GetWait? ==> pc.f < |s.flights|)
    && (pc.Holding? || pc.Releasing? ==> pc.e < |s.heap|)
  }

  ghost predicate Inv(s: State) {
    && MapInv(s)
    && (forall k :: k in s.running ==>
          s.running[k] < |s.flights| && s.flights[s.running[k]].key == k && !s.flights[s.running[k]].pc.FDone?)
    && (forall f :: 0 <= f < |s.flights| ==> FlightInv(s, f))
    && (forall i :: 0 <= i < |s.heap| ==> PlaceInv(s, i))
    && (forall a :: a in s.actors ==> PcInv(s, a, s.actors[a]))
    && (forall a, b :: a in s.actors && b in s.actors && s.actors[a].Locks() && s.actors[b].Locks() ==> a == b)
  }

  /** Moving one actor that keeps what it has to close. */
  lemma MoveKeepsInv(s: State, a: nat, pc: Pc)
    requires Inv(s) && PcInv(s, a, pc) && pc.ToClose() == At(s, a).ToClose()
    requires pc.Locks() ==> At(s, a).Locks() || forall b :: b in s.actors ==> !s.actors[b].Locks()
    ensures Inv(Move(s, a, pc))
  {
    var t := Move(s, a, pc);
    forall i | 0 <= i < |t.heap|
      ensures PlaceInv(t, i)
    {
      assert PlaceInv(s, i);
    }
    assert forall f :: 0 <= f < |s.flights| ==> FlightInv(s, f) ==> FlightInv(t, f);
    assert forall b :: b in s.actors ==> PcInv(s, b, s.actors[b]) ==> PcInv(t, b, s.actors[b]);
  }

  /** Touching times and holds of an entry. */
  lemma TouchKeepsInv(s: State, i: nat, e: Entry)
    requires Inv(s) && i < |s.heap|
    requires e.key == s.heap[i].key && e.place == s.heap[i].place && e.closes == s.heap[i].closes
    ensures Inv(SetEntry(s, i, e))
  {
    var t := SetEntry(s, i, e);
    forall j | 0 <= j < |t.heap|
      ensures PlaceInv(t, j)
    {
      assert PlaceInv(s, j);
    }
    assert forall f :: 0 <= f < |s.flights| ==> FlightInv(s, f) ==> FlightInv(t, f);
    assert forall b :: b in s.actors ==> PcInv(s, b, s.actors[b]) ==> PcInv(t, b, s.actors[b]);
  }

  ghost predicate Takes(s: State, a: nat, ids: set<nat>, pc: Pc) {
    && pc.ToClose() == At(s, a).ToClose() + ids
    && (forall i :: i in ids ==> i < |s.heap| && s.heap[i].place == Cached)
    && (s.locked ==> At(s, a).Locks())
    && (pc.Locks() ==> At(s, a).Locks() && !pc.EvictRead?)
    && (pc.Locks() ==> forall k :: k in pc.todo ==> k in s.entries && s.entries[k] !in ids)
    && !pc.GetWait? && !pc.Holding? && !pc.Releasing?
  }

  lemma TakeKeepsPlaces(s: State, a: nat, ids: set<nat>, pc: Pc, j: nat)
    requires Inv(s) && Takes(s, a, ids, pc) && j < |s.heap|
    ensures PlaceInv(Move(Take(s, a, ids), a, pc), j)
  {
    assert PlaceInv(s, j);
  }

  lemma TakeKeepsActors(s: State, a: nat, ids: set<nat>, pc: Pc, b: nat)
    requires Inv(s) && Takes(s, a, ids, pc) && (b == a || b in s.actors)
    ensures PcInv(Move(Take(s, a, ids), a, pc), b, if b == a then pc else s.actors[b])
  {
    assert b in s.actors ==> PcInv(s, b, s.actors[b]);
  }

  /** An actor takes cached entries out of the map and owns their close. */
  lemma TakeKeepsInv(s: State, a: nat, ids: set<nat>, pc: Pc)
    requires Inv(s) && Takes(s, a, ids, pc)
    ensures Inv(Move(Take(s, a, ids), a, pc))
  {
    var t := Move(Take(s, a, ids), a, pc);
    forall j | 0 <= j < |t.heap|
      ensures PlaceInv(t, j)
    {
      TakeKeepsPlaces(s, a, ids, pc, j);
    }
    forall f | 0 <= f < |t.flights|
      ensures FlightInv(t, f)
    {
      assert FlightInv(s, f);
    }
    forall b | b in t.actors
      ensures PcInv(t, b, t.actors[b])
    {
      TakeKeepsActors(s, a, ids, pc, b);
    }
  }

  /** A flight moves without taking over or handing on a connection. */
  lemma FlightMoveKeepsInv(s: State, f: nat, pc: FlightPc)
    requires Inv(s) && f < |s.flights| && !s.flights[f].pc.FDone? && !pc.FDone?
    requires pc.FDiscard? <==> s.flights[f].pc.FInsert?
    requires !s.flights[f].pc.FDiscard? && !pc.FInsert?
    requires FlightInv(SetFlight(s, f, pc), f)
    requires pc.FDiscard? ==> pc.e == s.flights[f].pc.e
    ensures Inv(SetFlight(s, f, pc))
  {
    var t := SetFlight(s, f, pc);
    assert FlightInv(s, f);
    forall g | 0 <= g < |t.flights|
      ensures FlightInv(t, g)
    {
      assert FlightInv(s, g);
    }
    forall i | 0 <= i < |t.heap|
      ensures PlaceInv(t, i)
    {
      assert PlaceInv(s, i);
    }
    assert forall b :: b in s.actors ==> PcInv(s, b, s.actors[b]) ==> PcInv(t, b, s.actors[b]);
  }

  lemma DialKeepsInv(s: State, f: nat)
    requires Inv(s) && Enabled(s, DialOk(f))
    ensures Inv(Fly(s, DialOk(f)))
  {
    var t := Fly(s, DialOk(f));
    assert FlightInv(s, f);
    forall g | 0 <= g < |t.flights|
      ensures FlightInv(t, g)
    {
      assert FlightInv(s, g);
    }
    forall i | 0 <= i < |t.heap|
      ensures PlaceInv(t, i)
    {
      if i < |s.heap| {
        assert PlaceInv(s, i);
      }
    }
    assert forall b :: b in s.actors ==> PcInv(s, b, s.actors[b]) ==> PcInv(t, b, s.actors[b]);
  }

  lemma InsertedPcs(s: State, t: State)
    requires Inv(s) && |t.flights| == |s.flights| && t.actors == s.actors && t.locked == s.locked
    requires s.entries.Keys <= t.entries.Keys && |t.heap| == |s.heap|
    requires forall i :: 0 <= i < |s.heap| && s.heap[i].place.WithCloser? ==> t.heap[i].place == s.heap[i].place
    ensures forall a :: a in t.actors ==> PcInv(t, a, t.actors[a])
  {
    forall a | a in t.actors
      ensures PcInv(t, a, t.actors[a])
    {
      assert PcInv(s, a, s.actors[a]);
    }
  }

  lemma InsertedFlight(s: State, f: nat, g: nat)
    requires Inv(s) && Enabled(s, FlightInsert(f)) && g < |s.flights|
    requires Gen(s, s.flights[f].key.asset) == s.flights[f].gen
    ensures FlightInv(Insert(s, f), g)
  {
    assert FlightInv(s, f) && FlightInv(s, g);
    assert PlaceInv(s, s.flights[f].pc.e);
  }

  lemma InsertedPlace(s: State, f: nat, i: nat)
    requires Inv(s) && Enabled(s, FlightInsert(f)) && i < |s.heap|
    requires Gen(s, s.flights[f].key.asset) == s.flights[f].gen
    ensures PlaceInv(Insert(s, f), i)
  {
    assert FlightInv(s, f);
    assert PlaceInv(s, i);
  }

  lemma InsertedKeepsInv(s: State, f: nat)
    requires Inv(s) && Enabled(s, FlightInsert(f))
    requires Gen(s, s.flights[f].key.asset) == s.flights[f].gen
    ensures Inv(Insert(s, f))
  {
    var t := Insert(s, f);
    assert FlightInv(s, f);
    assert |t.flights| == |s.flights| && |t.heap| == |s.heap|;
    forall g | 0 <= g < |s.flights|
      ensures FlightInv(t, g)
    {
      InsertedFlight(s, f, g);
    }
    forall i | 0 <= i < |s.heap|
      ensures PlaceInv(t, i)
    {
      InsertedPlace(s, f, i);
    }
    InsertedPcs(s, t);
  }

  lemma InsertKeepsInv(s: State, f: nat)
    requires Inv(s) && Enabled(s, FlightInsert(f))
    ensures Inv(Insert(s, f))
  {
    if Gen(s, s.flights[f].key.asset) == s.flights[f].gen {
      InsertedKeepsInv(s, f);
    } else {
      assert FlightInv(s, f);
      FlightMoveKeepsInv(s, f, FDiscard(s.flights[f].pc.e));
    }
  }

  lemma DiscardKeepsInv(s: State, f: nat)
    requires Inv(s) && Enabled(s, FlightDiscard(f))
    ensures Inv(Fly(s, FlightDiscard(f)))
  {
    var t := Fly(s, FlightDiscard(f));
    assert FlightInv(s, f);
    assert PlaceInv(s, s.flights[f].pc.e);
    forall g | 0 <= g < |t.flights|
      ensures FlightInv(t, g)
    {
      assert FlightInv(s, g);
    }
    forall i | 0 <= i < |t.heap|
      ensures PlaceInv(t, i)
    {
      assert PlaceInv(s, i);
    }
    assert forall b :: b in s.actors ==> PcInv(s, b, s.actors[b]) ==> PcInv(t, b, s.actors[b]);
  }

  lemma FlightEndKeepsInv(s: State, f: nat)
    requires Inv(s) && Enabled(s, FlightEnd(f))
    ensures Inv(Fly(s, FlightEnd(f)))
  {
    var t := Fly(s, FlightEnd(f));
    assert FlightInv(s, f);
    forall g | 0 <= g < |t.flights|
      ensures FlightInv(t, g)
    {
      assert FlightInv(s, g);
    }
    forall i | 0 <= i < |t.heap|
      ensures PlaceInv(t, i)
    {
      assert PlaceInv(s, i);
    }
    assert forall b :: b in s.actors ==> PcInv(s, b, s.actors[b]) ==> PcInv(t, b, s.actors[b]);
  }

  function Drained(s: State, a: nat, i: nat): State
    requires i < |s.heap| && At(s, a).Drain?
  {
    Move(SetEntry(s, i, CloseEntry(s.heap[i])), a, Drain(At(s, a).close - {i}))
  }

  lemma DrainedPcs(s: State, a: nat, i: nat, b: nat)
    requires Inv(s) && i < |s.heap| && At(s, a).Drain? && i in At(s, a).close && b in s.actors
    ensures b in Drained(s, a, i).actors && PcInv(Drained(s, a, i), b, Drained(s, a, i).actors[b])
  {
    assert PcInv(s, a, At(s, a)) && PcInv(s, b, s.actors[b]);
    assert i in At(s, a).ToClose();
  }

  lemma DrainKeepsInv(s: State, a: nat, i: nat)
    requires Inv(s) && i < |s.heap| && At(s, a).Drain? && i in At(s, a).close
    ensures Inv(Drained(s, a, i))
  {
    var t := Drained(s, a, i);
    assert PcInv(s, a, At(s, a)) && i in At(s, a).ToClose();
    assert PlaceInv(s, i);
    forall j | 0 <= j < |t.heap|
      ensures PlaceInv(t, j)
    {
      assert PlaceInv(s, j);
    }
    forall f | 0 <= f < |t.flights|
      ensures FlightInv(t, f)
    {
      assert FlightInv(s, f);
    }
    forall b | b in t.actors
      ensures PcInv(t, b, t.actors[b])
    {
      DrainedPcs(s, a, i, b);
    }
  }

  lemma JoinKeepsInv(s: State, a: nat)
    requires Inv(s) && At(s, a).GetJoin?
    ensures Inv(Join(s, a))
  {
    var p := At(s, a);
    if p.key in s.running {
      MoveKeepsInv(s, a, GetWait(p.key, s.running[p.key]));
    } else {
      var t := s.(running := s.running[p.key := |s.flights|],
                  flights := s.flights + [Flight(p.key, p.gen, p.seen, FCheck)]);
      forall g | 0 <= g < |t.flights|
        ensures FlightInv(t, g)
      {
        if g < |s.flights| {
          assert t.flights[g] == s.flights[g] && FlightInv(s, g);
        }
      }
      forall i | 0 <= i < |t.heap|
        ensures PlaceInv(t, i)
      {
        assert PlaceInv(s, i);
      }
      assert forall b :: b in s.actors ==> PcInv(s, b, s.actors[b]) ==> PcInv(t, b, s.actors[b]);
      MoveKeepsInv(t, a, GetWait(p.key, |s.flights|));
    }
  }

  /** Counters and clocks are no part of the invariant; the lock may be taken when free and
      given back by its holder. */
  lemma CountersKeepInv(s: State, t: State)
    requires Inv(s)
    requires t == s.(now := t.now, step := t.step, closeGen := t.closeGen, dropGen := t.dropGen,
                     lastClose := t.lastClose, lastDrop := t.lastDrop, locked := t.locked,
                     invalidations := t.invalidations)
    requires t.locked != s.locked ==> forall a :: a in s.actors ==> !s.actors[a].Locks()
    ensures Inv(t)
  {
    assert forall i :: 0 <= i < |s.heap| ==> PlaceInv(s, i) ==> PlaceInv(t, i);
    assert forall f :: 0 <= f < |s.flights| ==> FlightInv(s, f) ==> FlightInv(t, f);
    assert forall b :: b in s.actors ==> PcInv(s, b, s.actors[b]) ==> PcInv(t, b, s.actors[b]);
  }

  lemma CachedSets(s: State, asset: int)
    requires Inv(s)
    ensures forall i :: i in CachedIds(s) ==> i < |s.heap| && s.heap[i].place == Cached
    ensures forall i :: i in CachedOf(s, asset) ==> i < |s.heap| && s.heap[i].place == Cached
  {
    assert CachedOf(s, asset) <= CachedIds(s);
    forall i | i in CachedIds(s)
      ensures i < |s.heap| && s.heap[i].place == Cached
    {
      var k :| k in s.entries && s.entries[k] == i;
    }
  }

  lemma LookupKeepsInv(s: State, ev: Event)
    requires Inv(s) && Enabled(s, ev) && (ev.LookupStep? || ev.HoldStep? || ev.ReleaseStore? || ev.ReleaseLower?)
    ensures Inv(Use(s, ev))
  {
    var p := At(s, ev.a);
    assert PcInv(s, ev.a, p);
    var t := Use(s, ev);
    if p.Holding? || p.Releasing? || p.key in s.entries {
      var i := if p.Holding? || p.Releasing? then p.e else s.entries[p.key];
      TouchKeepsInv(s, i, t.heap[i]);
      MoveKeepsInv(SetEntry(s, i, t.heap[i]), ev.a, t.actors[ev.a]);
    } else {
      MoveKeepsInv(s, ev.a, t.actors[ev.a]);
    }
  }

  lemma DropKeepsInv(idleTTL: int, s: State, ev: Event)
    requires Inv(s) && Enabled(s, ev) && (ev.DropStep? || ev.DropAssetStep? || ev.CloseStep?)
    ensures Inv(Discard(idleTTL, s, ev))
  {
    var a := ev.a;
    var p := At(s, a);
    CachedSets(s, if p.DropAssetAt? then p.asset else 0);
    var ids := if ev.DropAssetStep? then CachedOf(s, p.asset)
               else if ev.CloseStep? then CachedIds(s)
               else DropIds(s, p.key);
    TakenKeepsInv(s, a, ids, Discard(idleTTL, s, ev));
  }

  lemma TakenKeepsInv(s: State, a: nat, ids: set<nat>, t: State)
    requires Inv(s) && !s.locked && At(s, a).ToClose() == {}
    requires forall i :: i in ids ==> i < |s.heap| && s.heap[i].place == Cached
    requires t == Move(Take(s, a, ids), a, Drain(ids)).(closeGen := t.closeGen, dropGen := t.dropGen,
                  lastClose := t.lastClose, lastDrop := t.lastDrop, invalidations := t.invalidations)
    ensures Inv(t)
  {
    TakeKeepsInv(s, a, ids, Drain(ids));
    CountersKeepInv(Move(Take(s, a, ids), a, Drain(ids)), t);
  }

  lemma EvictHoldsKeepsInv(idleTTL: int, s: State, a: nat, key: Key)
    requires Inv(s) && Enabled(s, EvictHolds(a, key))
    ensures Inv(Discard(idleTTL, s, EvictHolds(a, key)))
  {
    var p := At(s, a);
    assert PcInv(s, a, p);
    if s.heap[s.entries[key]].holds == 0 {
      MoveKeepsInv(s, a, EvictRead(p.threshold, p.todo - {key}, p.stale, key));
    } else {
      MoveKeepsInv(s, a, Evict(p.threshold, p.todo - {key}, p.stale));
    }
  }

  lemma EvictUsedKeepsInv(idleTTL: int, s: State, a: nat)
    requires Inv(s) && Enabled(s, EvictUsed(a))
    ensures Inv(Discard(idleTTL, s, EvictUsed(a)))
  {
    var p := At(s, a);
    assert PcInv(s, a, p);
    var i := s.entries[p.key];
    if s.heap[i].lastUsed < p.threshold {
      TakeKeepsInv(s, a, {i}, Evict(p.threshold, p.todo, p.stale + {i}));
    } else {
      MoveKeepsInv(s, a, Evict(p.threshold, p.todo, p.stale));
    }
  }

  lemma UnlockKeepsInv(idleTTL: int, s: State, a: nat)
    requires Inv(s) && Enabled(s, EvictEnd(a))
    ensures Inv(Discard(idleTTL, s, EvictEnd(a)))
  {
    var p := At(s, a);
    assert PcInv(s, a, p);
    var t := Move(s, a, Drain(p.stale));
    assert p.ToClose() == p.stale == Drain(p.stale).ToClose();
    MoveKeepsInv(s, a, Drain(p.stale));
    CountersKeepInv(t, t.(locked := false));
  }

  lemma LockKeepsInv(idleTTL: int, s: State, a: nat)
    requires Inv(s) && Enabled(s, EvictBegin(a))
    ensures Inv(Discard(idleTTL, s, EvictBegin(a)))
  {
    forall b | b in s.actors
      ensures !s.actors[b].Locks()
    {
      assert PcInv(s, b, s.actors[b]);
    }
    var u := s.(locked := true);
    CountersKeepInv(s, u);
    MoveKeepsInv(u, a, Evict(At(s, a).tick - idleTTL, s.entries.Keys, {}));
  }

  lemma CheckKeepsInv(s: State, ev: Event)
    requires Inv(s) && Enabled(s, ev) && (ev.FlightCheck? || ev.DialFail?)
    ensures Inv(Fly(s, ev))
  {
    var f := ev.f;
    var key := s.flights[f].key;
    assert FlightInv(s, f);
    var t := Fly(s, ev);
    if ev.FlightCheck? && key in s.entries {
      var i := s.entries[key];
      TouchKeepsInv(s, i, t.heap[i]);
      FlightMoveKeepsInv(SetEntry(s, i, t.heap[i]), f, t.flights[f].pc);
    } else {
      FlightMoveKeepsInv(s, f, t.flights[f].pc);
    }
  }

  lemma UseKeepsInv(s: State, ev: Event)
    requires Inv(s) && Uses(ev) && Enabled(s, ev)
    ensures Inv(Use(s, ev))
  {
    match ev
    case Tick(d) => CountersKeepInv(s, s.(now := s.now + d));
    case Begin(a, pc) => MoveKeepsInv(s, a, pc);
    case JoinStep(a) => JoinKeepsInv(s, a);
    case WaitStep(a) => MoveKeepsInv(s, a, Done);
    case _ => LookupKeepsInv(s, ev);
  }

  lemma TakeOutKeepsInv(idleTTL: int, s: State, ev: Event)
    requires Inv(s) && !Uses(ev) && !Flies(ev) && Enabled(s, ev)
    ensures Inv(Discard(idleTTL, s, ev))
  {
    match ev
    case EvictBegin(a) => LockKeepsInv(idleTTL, s, a);
    case EvictHolds(a, key) => EvictHoldsKeepsInv(idleTTL, s, a, key);
    case EvictUsed(a) => EvictUsedKeepsInv(idleTTL, s, a);
    case EvictEnd(a) => UnlockKeepsInv(idleTTL, s, a);
    case DrainClose(a, i) => DrainKeepsInv(s, a, i);
    case DrainDone(a) => MoveKeepsInv(s, a, Done);
    case _ => DropKeepsInv(idleTTL, s, ev);
  }

  lemma FlyKeepsInv(s: State, ev: Event)
    requires Inv(s) && Flies(ev) && Enabled(s, ev)
    ensures Inv(Fly(s, ev))
  {
    match ev
    case DialOk(f) => DialKeepsInv(s, f);
    case FlightInsert(f) => InsertKeepsInv(s, f);
    case FlightDiscard(f) => DiscardKeepsInv(s, f);
    case FlightEnd(f) => FlightEndKeepsInv(s, f);
    case _ => CheckKeepsInv(s, ev);
  }

  lemma ActKeepsInv(idleTTL: int, s: State, ev: Event)
    requires Inv(s) && Enabled(s, ev)
    ensures Inv(Act(idleTTL, s, ev))
  {
    if Uses(ev) {
      UseKeepsInv(s, ev);
    } else if Flies(ev) {
      FlyKeepsInv(s, ev);
    } else {
      TakeOutKeepsInv(idleTTL, s, ev);
    }
  }

  lemma StepKeepsInv(idleTTL: int, s: State, ev: Event)
    requires Inv(s) && Enabled(s, ev)
    ensures Inv(Apply(idleTTL, s, ev))
  {
    ActKeepsInv(idleTTL, s, ev);
    CountersKeepInv(Act(idleTTL, s, ev), Apply(idleTTL, s, ev));
  }

  lemma {:induction false} RunKeepsInv(idleTTL: int, s: State, evs: seq<Event>, t: State)
    requires Inv(s) && Run(idleTTL, s, evs, t)
    ensures Inv(t)
    decreases |evs|
  {
    if evs != [] {
      StepKeepsInv(idleTTL, s, evs[0]);
      RunKeepsInv(idleTTL, Apply(idleTTL, s, evs[0]), evs[1..], t);
    }
  }

  function Carriers(s: State, i: nat): set<nat> {
    set f: nat | f < |s.flights| && (s.flights[f].pc == FInsert(i) || s.flights[f].pc == FDiscard(i))
  }

  function Keys(s: State, i: nat): set<Key> {
    set k | k in s.entries && s.entries[k] == i
  }

  function Closers(s: State, i: nat): set<nat> {
    set a | a in s.actors && i in s.actors[a].ToClose()
  }

  lemma CarriersOf(s: State, i: nat)
    requires Inv(s) && i < |s.heap|
    ensures Carriers(s, i) == if s.heap[i].place.WithFlight? then {s.heap[i].place.f} else {}
  {
    assert PlaceInv(s, i);
    forall f | f in Carriers(s, i)
      ensures s.heap[i].place == WithFlight(f)
    {
      assert FlightInv(s, f);
    }
  }

  lemma KeysOf(s: State, i: nat)
    requires Inv(s) && i < |s.heap|
    ensures Keys(s, i) == if s.heap[i].place.Cached? then {s.heap[i].key} else {}
  {
    assert PlaceInv(s, i);
  }

  lemma ClosersOf(s: State, i: nat)
    requires Inv(s) && i < |s.heap|
    ensures Closers(s, i) == if s.heap[i].place.WithCloser? then {s.heap[i].place.a} else {}
  {
    assert PlaceInv(s, i);
    forall a | a in Closers(s, i)
      ensures s.heap[i].place == WithCloser(a)
    {
      assert PcInv(s, a, s.actors[a]);
    }
  }

  /** Main result: each connection dialed is in exactly one place — carried by one flight,
      cached under one key, owned by one actor that is closing it — or was closed, once. */
  lemma OnePlacePerConnection(idleTTL: int, evs: seq<Event>, t: State, i: nat)
    requires Run(idleTTL, Init(), evs, t) && i < |t.heap|
    ensures |Carriers(t, i)| + |Keys(t, i)| + |Closers(t, i)| + t.heap[i].closes == 1
  {
    RunKeepsInv(idleTTL, Init(), evs, t);
    assert PlaceInv(t, i);
    CarriersOf(t, i);
    KeysOf(t, i);
    ClosersOf(t, i);
  }

  /** Inserting after a dial never overwrites an entry. */
  lemma InsertNeverOverwrites(idleTTL: int, evs: seq<Event>, t: State, f: nat)
    requires Run(idleTTL, Init(), evs, t) && Enabled(t, FlightInsert(f))
    ensures t.flights[f].key !in t.entries
    ensures forall g :: 0 <= g < |t.flights| && t.flights[g].key == t.flights[f].key && g != f ==>
              t.flights[g].pc.FDone?
  {
    RunKeepsInv(idleTTL, Init(), evs, t);
    assert FlightInv(t, f);
    forall g | 0 <= g < |t.flights| && t.flights[g].key == t.flights[f].key && g != f
      ensures t.flights[g].pc.FDone?
    {
      assert FlightInv(t, g);
    }
  }
}
