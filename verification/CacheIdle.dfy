/** Freshness of cached connections, and what the idle evictor may take. */
module CacheIdle {
  import opened CacheMachine
  import opened CacheSafety

  /** What a generation read at step `seen` still says: if it is unchanged, the asset has not
      been invalidated since. */
  ghost predicate GenOk(s: State, asset: int, gen: nat, seen: nat) {
    && seen < s.step
    && gen <= Gen(s, asset)
    && (gen == Gen(s, asset) ==> LastDrop(s, asset) < seen && s.lastClose < seen)
  }

  ghost predicate FlightFresh(s: State, f: nat)
    requires f < |s.flights|
  {
    var fl := s.flights[f];
    && GenOk(s, fl.key.asset, fl.gen, fl.seen)
    && (fl.pc.FDial? ==> fl.seen < fl.pc.since)
    && (fl.pc.FInsert? ==> fl.pc.e < |s.heap| && fl.seen < s.heap[fl.pc.e].dialedAt)
  }

  ghost predicate ClocksOk(s: State) {
    s.lastClose < s.step && forall asset :: asset in s.lastDrop ==> s.lastDrop[asset] < s.step
  }

  ghost predicate FlightsFresh(s: State) {
    forall f :: 0 <= f < |s.flights| ==> FlightFresh(s, f)
  }

  ghost predicate ReaderFresh(s: State, pc: Pc) {
    pc.GetJoin? ==> GenOk(s, pc.key.asset, pc.gen, pc.seen)
  }

  ghost predicate ReadersFresh(s: State) {
    forall a :: a in s.actors ==> ReaderFresh(s, s.actors[a])
  }

  ghost predicate EntriesFresh(s: State) {
    forall k :: k in s.entries ==> EntryFresh(s, k)
  }

  ghost predicate FreshInv(s: State) {
    ClocksOk(s) && FlightsFresh(s) && ReadersFresh(s) && EntriesFresh(s)
  }

  ghost predicate EntryFresh(s: State, k: Key)
    requires k in s.entries
  {
    var i := s.entries[k];
    i < |s.heap| && s.heap[i].dialedAt > LastDrop(s, k.asset) && s.heap[i].dialedAt > s.lastClose
  }

  /** No generation moved, and the identity and dial of every entry are what they were. */
  ghost predicate Calm(s: State, t: State) {
    && t.step == s.step && t.closeGen == s.closeGen && t.dropGen == s.dropGen
    && t.lastClose == s.lastClose && t.lastDrop == s.lastDrop
    && SameDials(s, t)
  }

  ghost predicate SameDials(s: State, t: State) {
    |s.heap| <= |t.heap|
    && forall i :: 0 <= i < |s.heap| ==> t.heap[i].dialedAt == s.heap[i].dialedAt && t.heap[i].key == s.heap[i].key
  }

  lemma CalmGen(s: State, t: State, asset: int, gen: nat, seen: nat)
    requires GenOk(s, asset, gen, seen) && Calm(s, t)
    ensures GenOk(Next(t), asset, gen, seen)
  {
  }

  lemma CalmFlights(s: State, t: State)
    requires FlightsFresh(s) && Calm(s, t)
    requires forall f :: 0 <= f < |t.flights| ==>
      (f < |s.flights| && t.flights[f] == s.flights[f]) || FlightFresh(Next(t), f)
    ensures FlightsFresh(Next(t))
  {
    forall f | 0 <= f < |t.flights|
      ensures FlightFresh(Next(t), f)
    {
      if f < |s.flights| && t.flights[f] == s.flights[f] {
        assert FlightFresh(s, f);
        CalmGen(s, t, s.flights[f].key.asset, s.flights[f].gen, s.flights[f].seen);
      }
    }
  }

  lemma CalmReaders(s: State, t: State)
    requires ReadersFresh(s) && Calm(s, t)
    requires forall a :: a in t.actors ==>
      (a in s.actors && t.actors[a] == s.actors[a]) || ReaderFresh(Next(t), t.actors[a])
    ensures ReadersFresh(Next(t))
  {
    forall a | a in t.actors
      ensures ReaderFresh(Next(t), t.actors[a])
    {
      var pc := t.actors[a];
      if a in s.actors && pc == s.actors[a] && pc.GetJoin? {
        assert ReaderFresh(s, pc);
        CalmGen(s, t, pc.key.asset, pc.gen, pc.seen);
      }
    }
  }

  lemma CalmEntries(s: State, t: State)
    requires EntriesFresh(s) && Calm(s, t)
    requires forall k :: k in t.entries ==> (k in s.entries && t.entries[k] == s.entries[k]) || EntryFresh(t, k)
    ensures EntriesFresh(Next(t))
  {
    forall k | k in t.entries
      ensures EntryFresh(Next(t), k)
    {
      if k in s.entries && t.entries[k] == s.entries[k] {
        assert EntryFresh(s, k);
      } else {
        assert EntryFresh(t, k);
      }
    }
  }

  lemma JoinIsCalm(s: State, a: nat)
    requires At(s, a).GetJoin?
    ensures Calm(s, Join(s, a)) && Join(s, a).entries == s.entries
  {
  }

  lemma JoinedFlights(s: State, a: nat)
    requires FreshInv(s) && At(s, a).GetJoin?
    ensures FlightsFresh(Next(Join(s, a)))
  {
    var t, p := Join(s, a), At(s, a);
    assert ReaderFresh(s, p);
    JoinIsCalm(s, a);
    CalmGen(s, t, p.key.asset, p.gen, p.seen);
    CalmFlights(s, t);
  }

  lemma JoinKeepsFresh(s: State, a: nat)
    requires FreshInv(s) && At(s, a).GetJoin?
    ensures FreshInv(Next(Join(s, a)))
  {
    var t := Join(s, a);
    JoinIsCalm(s, a);
    JoinedFlights(s, a);
    CalmReaders(s, t);
    CalmEntries(s, t);
  }

  lemma UseIsCalm(s: State, ev: Event)
    requires Uses(ev) && Enabled(s, ev)
    ensures Calm(s, Use(s, ev)) && Use(s, ev).entries == s.entries
    ensures !ev.JoinStep? ==> Use(s, ev).flights == s.flights
  {
  }

  lemma UseReaders(s: State, ev: Event)
    requires ClocksOk(s) && Uses(ev) && Enabled(s, ev)
    ensures forall a :: a in Use(s, ev).actors ==>
      (a in s.actors && Use(s, ev).actors[a] == s.actors[a]) || ReaderFresh(Next(Use(s, ev)), Use(s, ev).actors[a])
  {
  }

  lemma UseKeepsFresh(s: State, ev: Event)
    requires FreshInv(s) && Uses(ev) && Enabled(s, ev)
    ensures FreshInv(Next(Use(s, ev)))
  {
    if ev.JoinStep? {
      JoinKeepsFresh(s, ev.a);
    } else {
      var t := Use(s, ev);
      UseIsCalm(s, ev);
      UseReaders(s, ev);
      CalmFlights(s, t);
      CalmReaders(s, t);
      CalmEntries(s, t);
    }
  }

  /** The steps up to the end of the dial; the rest take its result. */
  predicate Dials(ev: Event) {
    ev.FlightCheck? || ev.DialOk? || ev.DialFail?
  }

  lemma DialIsCalm(s: State, ev: Event)
    requires Flies(ev) && Enabled(s, ev) && Dials(ev)
    ensures Calm(s, Fly(s, ev))
  {
  }

  lemma ResultIsCalm(s: State, ev: Event)
    requires Flies(ev) && Enabled(s, ev) && !Dials(ev)
    ensures Calm(s, Fly(s, ev))
  {
  }

  lemma FlyIsCalm(s: State, ev: Event)
    requires Flies(ev) && Enabled(s, ev)
    ensures Calm(s, Fly(s, ev))
  {
    if Dials(ev) {
      DialIsCalm(s, ev);
    } else {
      ResultIsCalm(s, ev);
    }
  }

  ghost predicate OneFlightMoves(s: State, t: State, f: nat) {
    && t.actors == s.actors
    && |t.flights| == |s.flights| && forall g :: 0 <= g < |s.flights| && g != f ==> t.flights[g] == s.flights[g]
  }

  lemma DialMovesOneFlight(s: State, ev: Event)
    requires Flies(ev) && Enabled(s, ev) && Dials(ev)
    ensures OneFlightMoves(s, Fly(s, ev), ev.f) && Fly(s, ev).entries == s.entries
  {
  }

  lemma InsertMovesOneFlight(s: State, f: nat)
    requires Enabled(s, FlightInsert(f))
    ensures OneFlightMoves(s, Insert(s, f), f)
  {
  }

  lemma ResultMovesOneFlight(s: State, ev: Event)
    requires Flies(ev) && Enabled(s, ev) && !Dials(ev)
    ensures OneFlightMoves(s, Fly(s, ev), ev.f)
    ensures !ev.FlightInsert? ==> Fly(s, ev).entries == s.entries
  {
    if ev.FlightInsert? {
      InsertMovesOneFlight(s, ev.f);
    }
  }

  lemma FlyMovesOneFlight(s: State, ev: Event)
    requires Flies(ev) && Enabled(s, ev)
    ensures OneFlightMoves(s, Fly(s, ev), ev.f)
    ensures !ev.FlightInsert? ==> Fly(s, ev).entries == s.entries
  {
    if Dials(ev) {
      DialMovesOneFlight(s, ev);
    } else {
      ResultMovesOneFlight(s, ev);
    }
  }

  lemma DialedFlightFresh(s: State, ev: Event)
    requires Flies(ev) && Enabled(s, ev) && Dials(ev) && FlightFresh(s, ev.f) && Calm(s, Fly(s, ev))
    ensures FlightFresh(Next(Fly(s, ev)), ev.f)
  {
    CalmGen(s, Fly(s, ev), s.flights[ev.f].key.asset, s.flights[ev.f].gen, s.flights[ev.f].seen);
  }

  lemma EndedFlightFresh(s: State, ev: Event)
    requires Flies(ev) && Enabled(s, ev) && !Dials(ev) && FlightFresh(s, ev.f) && Calm(s, Fly(s, ev))
    ensures FlightFresh(Next(Fly(s, ev)), ev.f)
  {
    CalmGen(s, Fly(s, ev), s.flights[ev.f].key.asset, s.flights[ev.f].gen, s.flights[ev.f].seen);
  }

  lemma MovedFlightFresh(s: State, ev: Event)
    requires Flies(ev) && Enabled(s, ev) && FlightFresh(s, ev.f)
    ensures FlightFresh(Next(Fly(s, ev)), ev.f)
  {
    FlyIsCalm(s, ev);
    if Dials(ev) {
      DialedFlightFresh(s, ev);
    } else {
      EndedFlightFresh(s, ev);
    }
  }

  lemma InsertedFresh(s: State, f: nat)
    requires Inv(s) && Enabled(s, FlightInsert(f)) && FlightFresh(s, f)
    requires Gen(s, s.flights[f].key.asset) == s.flights[f].gen
    ensures EntryFresh(Insert(s, f), s.flights[f].key)
  {
    assert FlightInv(s, f);
  }

  ghost predicate EntriesStand(s: State, t: State) {
    forall k :: k in t.entries ==> (k in s.entries && t.entries[k] == s.entries[k]) || EntryFresh(t, k)
  }

  lemma FlyEntriesStand(s: State, ev: Event)
    requires Inv(s) && Flies(ev) && Enabled(s, ev) && FlightFresh(s, ev.f)
    ensures EntriesStand(s, Fly(s, ev))
  {
    FlyMovesOneFlight(s, ev);
    if ev.FlightInsert? && Gen(s, s.flights[ev.f].key.asset) == s.flights[ev.f].gen {
      InsertedFresh(s, ev.f);
    }
  }

  lemma OneFlightKeepsFresh(s: State, t: State, f: nat)
    requires FreshInv(s) && Calm(s, t) && f < |s.flights| && OneFlightMoves(s, t, f) && EntriesStand(s, t)
    requires FlightFresh(Next(t), f)
    ensures FreshInv(Next(t))
  {
    CalmFlights(s, t);
    CalmReaders(s, t);
    CalmEntries(s, t);
  }

  lemma FlyKeepsFresh(s: State, ev: Event)
    requires Inv(s) && FreshInv(s) && Flies(ev) && Enabled(s, ev)
    ensures FreshInv(Next(Fly(s, ev)))
  {
    FlyIsCalm(s, ev);
    FlyMovesOneFlight(s, ev);
    assert FlightFresh(s, ev.f);
    MovedFlightFresh(s, ev);
    FlyEntriesStand(s, ev);
    OneFlightKeepsFresh(s, Fly(s, ev), ev.f);
  }

  /** Invalidation raises a generation, ... */
  ghost predicate Raised(s: State, t: State, closed: bool, asset: int) {
    && t.step == s.step
    && t.closeGen == s.closeGen + (if closed then 1 else 0)
    && t.lastClose == (if closed then s.step else s.lastClose)
    && t.dropGen == (if closed then s.dropGen else s.dropGen[asset := DropGen(s, asset) + 1])
    && t.lastDrop == (if closed then s.lastDrop else s.lastDrop[asset := s.step])
  }

  lemma RaisedGen(s: State, t: State, closed: bool, asset: int, x: int, gen: nat, seen: nat)
    requires GenOk(s, x, gen, seen) && Raised(s, t, closed, asset)
    ensures GenOk(Next(t), x, gen, seen)
  {
  }

  /** ... and empties the cache of everything it concerns. */
  lemma RaisedKeepsFresh(s: State, t: State, a: nat, closed: bool, asset: int)
    requires FreshInv(s) && SameDials(s, t) && Raised(s, t, closed, asset) && t.flights == s.flights
    requires a in t.actors && t.actors == s.actors[a := t.actors[a]] && !t.actors[a].GetJoin?
    requires forall k :: k in t.entries ==>
      k in s.entries && t.entries[k] == s.entries[k] && !closed && k.asset != asset
    ensures FreshInv(Next(t))
  {
    forall f | 0 <= f < |t.flights|
      ensures FlightFresh(Next(t), f)
    {
      assert FlightFresh(s, f);
      RaisedGen(s, t, closed, asset, s.flights[f].key.asset, s.flights[f].gen, s.flights[f].seen);
    }
    forall b | b in t.actors
      ensures ReaderFresh(Next(t), t.actors[b])
    {
      var pc := t.actors[b];
      if pc.GetJoin? {
        assert ReaderFresh(s, s.actors[b]);
        RaisedGen(s, t, closed, asset, pc.key.asset, pc.gen, pc.seen);
      }
    }
    forall k | k in t.entries
      ensures EntryFresh(Next(t), k)
    {
      assert EntryFresh(s, k);
    }
  }

  lemma DropAssetKeepsFresh(idleTTL: int, s: State, a: nat)
    requires Inv(s) && FreshInv(s) && Enabled(s, DropAssetStep(a))
    ensures FreshInv(Next(Discard(idleTTL, s, DropAssetStep(a))))
  {
    var asset := At(s, a).asset;
    var t := Discard(idleTTL, s, DropAssetStep(a));
    forall k | k in t.entries
      ensures k.asset != asset
    {
      assert s.entries[k] !in CachedOf(s, asset);
    }
    RaisedKeepsFresh(s, t, a, false, asset);
  }

  lemma CloseKeepsFresh(idleTTL: int, s: State, a: nat)
    requires Inv(s) && FreshInv(s) && Enabled(s, CloseStep(a))
    ensures FreshInv(Next(Discard(idleTTL, s, CloseStep(a))))
  {
    var t := Discard(idleTTL, s, CloseStep(a));
    assert forall k :: k in s.entries ==> s.entries[k] in CachedIds(s);
    assert t.entries == map[];
    RaisedKeepsFresh(s, t, a, true, 0);
  }

  lemma DiscardIsCalm(idleTTL: int, s: State, ev: Event)
    requires !Uses(ev) && !Flies(ev) && Enabled(s, ev) && !ev.DropAssetStep? && !ev.CloseStep?
    ensures Calm(s, Discard(idleTTL, s, ev)) && Discard(idleTTL, s, ev).flights == s.flights
  {
  }

  lemma DiscardMovesOneActor(idleTTL: int, s: State, ev: Event)
    requires !Uses(ev) && !Flies(ev) && Enabled(s, ev)
    ensures Discard(idleTTL, s, ev).actors == s.actors[ev.a := DiscardPc(idleTTL, s, ev)]
  {
  }

  lemma DiscardReadsNothing(idleTTL: int, s: State, ev: Event)
    requires !Uses(ev) && !Flies(ev) && Enabled(s, ev)
    ensures ev.a in Discard(idleTTL, s, ev).actors && !Discard(idleTTL, s, ev).actors[ev.a].GetJoin?
  {
  }

  lemma DiscardShrinks(idleTTL: int, s: State, ev: Event)
    requires !Uses(ev) && !Flies(ev) && Enabled(s, ev)
    ensures var t := Discard(idleTTL, s, ev);
            forall k :: k in t.entries ==> k in s.entries && t.entries[k] == s.entries[k]
  {
  }

  lemma TakeOutKeepsFresh(idleTTL: int, s: State, ev: Event)
    requires Inv(s) && FreshInv(s) && !Uses(ev) && !Flies(ev) && Enabled(s, ev)
    ensures FreshInv(Next(Discard(idleTTL, s, ev)))
  {
    if ev.DropAssetStep? {
      DropAssetKeepsFresh(idleTTL, s, ev.a);
    } else if ev.CloseStep? {
      CloseKeepsFresh(idleTTL, s, ev.a);
    } else {
      var t := Discard(idleTTL, s, ev);
      DiscardIsCalm(idleTTL, s, ev);
      DiscardMovesOneActor(idleTTL, s, ev);
      DiscardReadsNothing(idleTTL, s, ev);
      DiscardShrinks(idleTTL, s, ev);
      CalmFlights(s, t);
      CalmReaders(s, t);
      CalmEntries(s, t);
    }
  }

  lemma StepKeepsFresh(idleTTL: int, s: State, ev: Event)
    requires Inv(s) && FreshInv(s) && Enabled(s, ev)
    ensures FreshInv(Apply(idleTTL, s, ev))
  {
    if Uses(ev) {
      UseKeepsFresh(s, ev);
    } else if Flies(ev) {
      FlyKeepsFresh(s, ev);
    } else {
      TakeOutKeepsFresh(idleTTL, s, ev);
    }
  }

  // Holds and idle time.

  /** The Holds of entry i not yet released. */
  function Tokens(s: State, i: nat): set<nat> {
    set a | a in s.actors && s.actors[a].Token(i)
  }

  ghost predicate EntryHolds(s: State, i: nat)
    requires i < |s.heap|
  {
    && s.heap[i].holds == |Tokens(s, i)|
    && s.heap[i].releasedAt <= s.heap[i].lastUsed <= s.now
  }

  /** Between its two reads the evictor's first one stays true: holds is still 0. */
  ghost predicate ReadStands(s: State, pc: Pc) {
    pc.EvictRead? ==> pc.key in s.entries && s.entries[pc.key] < |s.heap| && s.heap[s.entries[pc.key]].holds == 0
  }

  ghost predicate HoldInv(s: State) {
    && (forall i :: 0 <= i < |s.heap| ==> EntryHolds(s, i))
    && (forall a :: a in s.actors ==> ReadStands(s, s.actors[a]))
  }

  ghost predicate TokensSame(s: State, t: State) {
    forall i: nat :: Tokens(t, i) == Tokens(s, i)
  }

  /** No hold is taken or given back, and entries are only used later than before. */
  ghost predicate TimesForward(s: State, t: State) {
    && s.now <= t.now && |s.heap| <= |t.heap|
    && (forall i :: 0 <= i < |s.heap| ==>
          t.heap[i].holds == s.heap[i].holds && TimeStep(s.heap[i], t.heap[i], t.now))
    && (forall i :: |s.heap| <= i < |t.heap| ==>
          t.heap[i].holds == 0 && t.heap[i].releasedAt <= t.heap[i].lastUsed <= t.now)
  }

  ghost predicate TimeStep(e: Entry, e': Entry, now: int) {
    || (e'.lastUsed == e.lastUsed && e'.releasedAt == e.releasedAt)
    || (e'.lastUsed == now && (e'.releasedAt == e.releasedAt || e'.releasedAt == now))
  }

  /** What an evictor between its reads looks at stays where it was. */
  ghost predicate ReadsSame(s: State, t: State) {
    forall b :: b in t.actors && t.actors[b].EvictRead? ==>
      (b in s.actors && t.actors[b] == s.actors[b]
       && t.actors[b].key in t.entries && t.actors[b].key in s.entries
       && t.entries[t.actors[b].key] == s.entries[t.actors[b].key])
      || ReadStands(t, t.actors[b])
  }

  lemma SameKeepsHolds(s: State, t: State)
    requires Inv(s) && HoldInv(s) && TokensSame(s, t) && TimesForward(s, t) && ReadsSame(s, t)
    ensures HoldInv(t)
  {
    forall i | 0 <= i < |t.heap|
      ensures EntryHolds(t, i)
    {
      assert Tokens(t, i) == Tokens(s, i);
      if i < |s.heap| {
        assert EntryHolds(s, i);
      } else {
        NoTokens(s, i);
      }
    }
    forall b | b in t.actors
      ensures ReadStands(t, t.actors[b])
    {
      if b in s.actors && t.actors[b] == s.actors[b] {
        assert ReadStands(s, s.actors[b]);
      }
    }
  }

  lemma NoTokens(s: State, i: nat)
    requires Inv(s) && i >= |s.heap|
    ensures Tokens(s, i) == {}
  {
    forall a | a in s.actors
      ensures !s.actors[a].Token(i)
    {
      assert PcInv(s, a, s.actors[a]);
    }
  }

  lemma MovedTokens(s: State, t: State, a: nat, pc: Pc)
    requires t.actors == s.actors[a := pc] && forall i: nat :: pc.Token(i) <==> At(s, a).Token(i)
    ensures TokensSame(s, t)
  {
  }

  /** One actor takes (d = 1) or gives back (d = -1) a hold of entry i. */
  ghost predicate Changes(s: State, a: nat, pc: Pc, i: nat, d: int) {
    && (d == 1 || d == -1) && i < |s.heap|
    && pc == (if d == 1 then Holding(i) else Done)
    && (if d == 1 then !s.locked && At(s, a).HoldAt? else At(s, a) == Releasing(i))
  }

  function Changed(s: State, a: nat, pc: Pc, i: nat, d: int): State
    requires i < |s.heap|
  {
    Move(SetEntry(s, i, s.heap[i].(holds := s.heap[i].holds + d)), a, pc)
  }

  lemma ChangedTokens(s: State, a: nat, pc: Pc, i: nat, d: int, j: nat)
    requires Changes(s, a, pc, i, d)
    ensures Tokens(Changed(s, a, pc, i, d), j) ==
      if j != i then Tokens(s, j) else if d == 1 then Tokens(s, i) + {a} else Tokens(s, i) - {a}
    ensures a in Tokens(s, i) <==> d == -1
  {
  }

  lemma ChangeKeepsCount(s: State, a: nat, pc: Pc, i: nat, d: int, j: nat)
    requires Changes(s, a, pc, i, d) && j < |s.heap| && EntryHolds(s, j)
    ensures EntryHolds(Changed(s, a, pc, i, d), j)
  {
    ChangedTokens(s, a, pc, i, d, j);
  }

  lemma ChangeKeepsHolds(s: State, a: nat, pc: Pc, i: nat, d: int)
    requires Inv(s) && HoldInv(s) && Changes(s, a, pc, i, d)
    ensures HoldInv(Changed(s, a, pc, i, d))
  {
    var t := Changed(s, a, pc, i, d);
    forall j | 0 <= j < |t.heap|
      ensures EntryHolds(t, j)
    {
      ChangeKeepsCount(s, a, pc, i, d, j);
    }
    ChangedTokens(s, a, pc, i, d, i);
    assert EntryHolds(s, i);
    forall b | b in t.actors
      ensures ReadStands(t, t.actors[b])
    {
      if b != a {
        assert ReadStands(s, s.actors[b]) && PcInv(s, b, s.actors[b]);
      }
    }
  }

  /** Uses other than taking and giving back a hold. */
  lemma UseIsQuiet(s: State, ev: Event)
    requires Uses(ev) && Enabled(s, ev) && !ev.ReleaseLower? && !ev.Tick?
    requires ev.HoldStep? ==> At(s, ev.a).key !in s.entries
    ensures TimesForward(s, Use(s, ev))
    ensures var t := Use(s, ev);
      && ev.a in t.actors && t.actors == s.actors[ev.a := t.actors[ev.a]]
      && !t.actors[ev.a].EvictRead? && t.entries == s.entries
    ensures forall i: nat :: Use(s, ev).actors[ev.a].Token(i) <==> At(s, ev.a).Token(i)
  {
  }

  lemma UseKeepsHolds(s: State, ev: Event)
    requires Inv(s) && HoldInv(s) && Uses(ev) && Enabled(s, ev)
    ensures HoldInv(Use(s, ev))
  {
    if ev.HoldStep? && At(s, ev.a).key in s.entries {
      var i := s.entries[At(s, ev.a).key];
      ChangeKeepsHolds(s, ev.a, Holding(i), i, 1);
    } else if ev.ReleaseLower? {
      ChangeKeepsHolds(s, ev.a, Done, At(s, ev.a).e, -1);
    } else {
      var t := Use(s, ev);
      if ev.Tick? {
        assert TokensSame(s, t);
      } else {
        UseIsQuiet(s, ev);
        MovedTokens(s, t, ev.a, t.actors[ev.a]);
      }
      assert forall b :: b in s.actors ==> ReadStands(s, s.actors[b]);
      SameKeepsHolds(s, t);
    }
  }

  lemma DialIsQuiet(s: State, ev: Event)
    requires Flies(ev) && Enabled(s, ev) && Dials(ev)
    ensures TimesForward(s, Fly(s, ev))
  {
  }

  lemma ResultIsQuiet(s: State, ev: Event)
    requires Flies(ev) && Enabled(s, ev) && !Dials(ev)
    ensures TimesForward(s, Fly(s, ev))
  {
  }

  lemma DialTokens(s: State, ev: Event)
    requires Inv(s) && Flies(ev) && Enabled(s, ev) && Dials(ev)
    ensures TokensSame(s, Fly(s, ev))
  {
    DialMovesOneFlight(s, ev);
    assert FlightInv(s, ev.f);
  }

  lemma ResultTokens(s: State, ev: Event)
    requires Inv(s) && Flies(ev) && Enabled(s, ev) && !Dials(ev)
    ensures TokensSame(s, Fly(s, ev))
  {
    ResultMovesOneFlight(s, ev);
    assert FlightInv(s, ev.f);
  }

  lemma FlyReads(s: State, ev: Event)
    requires Inv(s) && HoldInv(s) && Flies(ev) && Enabled(s, ev)
    ensures ReadsSame(s, Fly(s, ev))
  {
    var t := Fly(s, ev);
    FlyMovesOneFlight(s, ev);
    assert FlightInv(s, ev.f);
    forall b | b in s.actors && s.actors[b].EvictRead?
      ensures s.actors[b].key in s.entries && s.actors[b].key in t.entries
              && t.entries[s.actors[b].key] == s.entries[s.actors[b].key]
    {
      assert ReadStands(s, s.actors[b]);
    }
  }

  lemma FlyKeepsHolds(s: State, ev: Event)
    requires Inv(s) && HoldInv(s) && Flies(ev) && Enabled(s, ev)
    ensures HoldInv(Fly(s, ev))
  {
    if Dials(ev) {
      DialIsQuiet(s, ev);
      DialTokens(s, ev);
    } else {
      ResultIsQuiet(s, ev);
      ResultTokens(s, ev);
    }
    FlyReads(s, ev);
    SameKeepsHolds(s, Fly(s, ev));
  }

  lemma DiscardIsQuiet(idleTTL: int, s: State, ev: Event)
    requires !Uses(ev) && !Flies(ev) && Enabled(s, ev)
    ensures TimesForward(s, Discard(idleTTL, s, ev))
  {
  }

  lemma DiscardTokens(idleTTL: int, s: State, ev: Event)
    requires !Uses(ev) && !Flies(ev) && Enabled(s, ev)
    ensures var t := Discard(idleTTL, s, ev); ev.a in t.actors && ReadStands(t, t.actors[ev.a])
    ensures forall i: nat :: Discard(idleTTL, s, ev).actors[ev.a].Token(i) <==> At(s, ev.a).Token(i)
  {
  }

  /** Only the evictor itself changes the map under its lock. */
  lemma LockedMap(idleTTL: int, s: State, ev: Event)
    requires !Uses(ev) && !Flies(ev) && Enabled(s, ev) && s.locked && !ev.EvictUsed?
    ensures Discard(idleTTL, s, ev).entries == s.entries
  {
  }

  lemma TakeOutKeepsHolds(idleTTL: int, s: State, ev: Event)
    requires Inv(s) && HoldInv(s) && !Uses(ev) && !Flies(ev) && Enabled(s, ev)
    ensures HoldInv(Discard(idleTTL, s, ev))
  {
    var t := Discard(idleTTL, s, ev);
    DiscardIsQuiet(idleTTL, s, ev);
    DiscardMovesOneActor(idleTTL, s, ev);
    DiscardTokens(idleTTL, s, ev);
    MovedTokens(s, t, ev.a, t.actors[ev.a]);
    forall b | b in t.actors && t.actors[b].EvictRead? && b != ev.a
      ensures s.actors[b].key in t.entries && s.actors[b].key in s.entries
              && t.entries[s.actors[b].key] == s.entries[s.actors[b].key]
    {
      assert PcInv(s, b, s.actors[b]);
      LockedMap(idleTTL, s, ev);
    }
    SameKeepsHolds(s, t);
  }

  lemma NextKeepsHolds(u: State)
    requires HoldInv(u)
    ensures HoldInv(Next(u))
  {
    var t := Next(u);
    assert forall i :: 0 <= i < |u.heap| ==> EntryHolds(u, i) ==> Tokens(t, i) == Tokens(u, i) && EntryHolds(t, i);
    assert forall a :: a in u.actors ==> ReadStands(u, u.actors[a]) ==> ReadStands(t, u.actors[a]);
  }

  lemma StepKeepsHolds(idleTTL: int, s: State, ev: Event)
    requires Inv(s) && HoldInv(s) && Enabled(s, ev)
    ensures HoldInv(Apply(idleTTL, s, ev))
  {
    if Uses(ev) {
      UseKeepsHolds(s, ev);
    } else if Flies(ev) {
      FlyKeepsHolds(s, ev);
    } else {
      TakeOutKeepsHolds(idleTTL, s, ev);
    }
    NextKeepsHolds(Act(idleTTL, s, ev));
  }

  lemma {:induction false} RunKeepsAll(idleTTL: int, s: State, evs: seq<Event>, t: State)
    requires Inv(s) && FreshInv(s) && HoldInv(s) && Run(idleTTL, s, evs, t)
    ensures Inv(t) && FreshInv(t) && HoldInv(t)
    decreases |evs|
  {
    if evs != [] {
      StepKeepsInv(idleTTL, s, evs[0]);
      StepKeepsFresh(idleTTL, s, evs[0]);
      StepKeepsHolds(idleTTL, s, evs[0]);
      RunKeepsAll(idleTTL, Apply(idleTTL, s, evs[0]), evs[1..], t);
    }
  }

  /** Main result: in every interleaving with dials in flight, the dial of a cached entry
      began after the latest DropAsset of its asset and after the latest Close. */
  lemma CachedIsFresh(idleTTL: int, evs: seq<Event>, t: State, k: Key)
    requires Run(idleTTL, Init(), evs, t) && k in t.entries
    ensures t.entries[k] < |t.heap| && t.heap[t.entries[k]].key == k
    ensures t.heap[t.entries[k]].dialedAt > LastDrop(t, k.asset)
    ensures t.heap[t.entries[k]].dialedAt > t.lastClose
  {
    RunKeepsAll(idleTTL, Init(), evs, t);
    assert EntryFresh(t, k);
  }

  /** holds counts exactly the unreleased Holds. */
  lemma HoldsAreTokens(idleTTL: int, evs: seq<Event>, t: State, i: nat)
    requires Run(idleTTL, Init(), evs, t) && i < |t.heap|
    ensures t.heap[i].holds == |Tokens(t, i)|
  {
    RunKeepsAll(idleTTL, Init(), evs, t);
    assert EntryHolds(t, i);
  }

  /** A sweep's second read takes out only an entry last used before the threshold. */
  lemma EvictTakesTheOld(idleTTL: int, s: State, a: nat)
    requires Enabled(s, EvictUsed(a))
    ensures At(s, a).key in s.entries && s.entries[At(s, a).key] < |s.heap|
    ensures At(s, a).key !in Apply(idleTTL, s, EvictUsed(a)).entries ==>
              s.heap[s.entries[At(s, a).key]].lastUsed < At(s, a).threshold
  {
    assert Apply(idleTTL, s, EvictUsed(a)).entries == Discard(idleTTL, s, EvictUsed(a)).entries;
  }

  /** Main result: when a sweep removes an entry, nobody holds it at that moment, although
      Holds are released outside the lock between the sweep's two reads; and its last use,
      which is no earlier than the end of its last Hold, lies before the threshold. */
  lemma EvictedWasIdle(idleTTL: int, evs: seq<Event>, s: State, a: nat)
    requires Run(idleTTL, Init(), evs, s) && Enabled(s, EvictUsed(a))
    ensures At(s, a).key !in Apply(idleTTL, s, EvictUsed(a)).entries ==>
              var i := s.entries[At(s, a).key];
              && Tokens(s, i) == {}
              && s.heap[i].releasedAt <= s.heap[i].lastUsed < At(s, a).threshold
  {
    RunKeepsAll(idleTTL, Init(), evs, s);
    EvictTakesTheOld(idleTTL, s, a);
    assert EntryHolds(s, s.entries[At(s, a).key]) && ReadStands(s, At(s, a));
  }
}
