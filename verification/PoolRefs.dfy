/** Where the guards of PoolUse matter. Runs whose only removals are idle cleanup and ReleaseRefused are always
    guarded; a forced removal can break the guards in two ways, shown by concrete runs. */
module PoolRefs {
  import opened PoolEntries
  import opened PoolMachine
  import opened PoolSafety
  import opened PoolCounts
  import opened PoolUse

  /** Neither Remove nor Close is called, and a probe fails only when the connection has been retired. */
  predicate Gentle(s: State, ev: Event)
    requires Enabled(s, ev)
  {
    && !ev.BeginRemove? && !ev.BeginClose?
    && (ev.PingStep? && ev.ping.Dead? ==> At(s, ev.a).e < |s.heap| && s.heap[At(s, ev.a).e].closed)
  }

  ghost predicate GentleRun(c: Config, s: State, evs: seq<Event>)
    decreases |evs|
  {
    evs == [] || (Enabled(s, evs[0]) && Gentle(s, evs[0]) && GentleRun(c, Apply(c, s, evs[0]), evs[1..]))
  }

  ghost predicate GentlePc(s: State, pc: Pc) {
    && !pc.RemoveAt?
    && (forall i :: i in pc.ToRetire() ==> i < |s.heap| && s.heap[i].closed)
    && (pc.GetUnmap? ==> pc.e < |s.heap| && s.heap[pc.e].closed)
  }

  ghost predicate GentleInv(s: State) {
    forall a :: a in s.actors ==> GentlePc(s, s.actors[a])
  }

  lemma InFlightMeans(s: State, i: nat)
    requires Inv(s) && i < |s.heap|
    ensures InFlight(s, i) ==> i !in s.published
  {
    if InFlight(s, i) {
      assert FlightInv(s, s.running[s.heap[i].asset]);
    }
  }

  lemma RetiringMeans(s: State, i: nat)
    requires GentleInv(s)
    ensures SomeoneRetires(s, i) ==> i < |s.heap| && s.heap[i].closed
  {
    if SomeoneRetires(s, i) {
      var b :| b in s.actors && i in s.actors[b].ToRetire();
      assert GentlePc(s, s.actors[b]);
    }
  }

  lemma GentleIsGuarded(s: State, ev: Event)
    requires UseInv(s) && GentleInv(s) && Enabled(s, ev) && Gentle(s, ev)
    ensures Guarded(s, ev)
  {
    if ev.AcquireStep? || ev.TakeStep? {
      var e := At(s, ev.a).e;
      assert PcInv(s, At(s, ev.a)) && EntryInv(s, e);
      InFlightMeans(s, e);
      RetiringMeans(s, e);
    } else if ev.RemoveStep? || ev.UnmapStep? {
      assert GentlePc(s, At(s, ev.a));
    }
  }

  /** Retirement is final. */
  lemma ClosedStays(c: Config, s: State, ev: Event)
    requires Enabled(s, ev)
    ensures |s.heap| <= |Apply(c, s, ev).heap|
    ensures forall i :: 0 <= i < |s.heap| && s.heap[i].closed ==> Apply(c, s, ev).heap[i].closed
  {
  }

  lemma GetterStaysGentle(c: Config, s: State, ev: Event)
    requires Enabled(s, ev) && Gentle(s, ev) && Getting(ev)
    requires GentlePc(s, At(s, ev.a))
    ensures ev.a in Apply(c, s, ev).actors && GentlePc(Apply(c, s, ev), Apply(c, s, ev).actors[ev.a])
  {
  }

  lemma OtherActorStaysGentle(c: Config, s: State, ev: Event)
    requires Enabled(s, ev) && Gentle(s, ev) && !Environment(ev) && !Getting(ev)
    requires GentlePc(s, At(s, ev.a))
    ensures ev.a in Apply(c, s, ev).actors && GentlePc(Apply(c, s, ev), Apply(c, s, ev).actors[ev.a])
  {
    var t := Apply(c, s, ev);
    ClosedStays(c, s, ev);
    forall i | i in t.actors[ev.a].ToRetire()
      ensures i < |t.heap| && t.heap[i].closed
    {
      assert i in At(s, ev.a).ToRetire();
    }
  }

  lemma StepKeepsGentle(c: Config, s: State, ev: Event)
    requires GentleInv(s) && Enabled(s, ev) && Gentle(s, ev)
    ensures GentleInv(Apply(c, s, ev))
  {
    ClosedStays(c, s, ev);
    OneActorMoves(c, s, ev);
    if Getting(ev) {
      GetterStaysGentle(c, s, ev);
    } else if !Environment(ev) {
      OtherActorStaysGentle(c, s, ev);
    }
    GentleStays(s, Apply(c, s, ev), if Environment(ev) then {} else {ev.a});
  }

  lemma GentleStays(s: State, t: State, moved: set<nat>)
    requires GentleInv(s) && |s.heap| <= |t.heap|
    requires forall i :: 0 <= i < |s.heap| && s.heap[i].closed ==> t.heap[i].closed
    requires forall a :: a in t.actors && a !in moved ==> a in s.actors && t.actors[a] == s.actors[a]
    requires forall a :: a in moved ==> a in t.actors && GentlePc(t, t.actors[a])
    ensures GentleInv(t)
  {
    forall a | a in t.actors
      ensures GentlePc(t, t.actors[a])
    {
      if a !in moved {
        assert GentlePc(s, s.actors[a]);
      }
    }
  }

  lemma {:induction false} GentleRunIsGuarded(c: Config, s: State, evs: seq<Event>, t: State)
    requires UseInv(s) && GentleInv(s) && Run(c, s, evs, t) && GentleRun(c, s, evs)
    ensures AllGuarded(c, s, evs)
    decreases |evs|
  {
    if evs != [] {
      GentleIsGuarded(s, evs[0]);
      StepKeepsUseExactlyWhen(c, s, evs[0]);
      StepKeepsGentle(c, s, evs[0]);
      GentleRunIsGuarded(c, Apply(c, s, evs[0]), evs[1..], t);
    }
  }

  /** In a gentle run every event is guarded, so that every release finds its own entry, counts are right
      throughout, and a borrowed entry is never retired and stays in the map. */
  lemma BorrowedStaysLive(c: Config, evs: seq<Event>, t: State, a: nat, i: nat)
    requires Run(c, Init(), evs, t) && GentleRun(c, Init(), evs)
    ensures AllGuarded(c, Init(), evs) && AllOwn(c, Init(), evs)
    ensures At(t, a).Borrows(i) ==> i < |t.heap| && !t.heap[i].closed && InMap(t, i)
  {
    InitIsUsed();
    GentleRunIsGuarded(c, Init(), evs, t);
    RunKeepsUseExactlyWhen(c, Init(), evs, t);
    if At(t, a).Borrows(i) {
      HeldIsPooled(t, a, i);
    }
  }

  /** In a gentle run every refusal is of a live entry, its caller's own. */
  lemma GentleRefusalsAreOfLive(c: Config, evs: seq<Event>, t: State, a: nat)
    requires Run(c, Init(), evs, t) && GentleRun(c, Init(), evs)
    requires Enabled(t, ChannelStep(a, Prohibited))
    ensures !t.heap[At(t, a).e].closed && FindsOwn(t, a)
  {
    InitIsUsed();
    GentleRunIsGuarded(c, Init(), evs, t);
    RefusalsAreOfLive(c, evs, t, a);
  }

  // ---- how a forced removal breaks the guards ----

  lemma {:induction false} RunSnoc(c: Config, s: State, evs: seq<Event>, t: State, ev: Event)
    requires Run(c, s, evs, t) && Enabled(t, ev)
    ensures Run(c, s, evs + [ev], Apply(c, t, ev))
    decreases |evs|
  {
    if evs == [] {
      assert evs + [ev] == [ev];
      assert Run(c, Apply(c, s, ev), [], Apply(c, t, ev));
    } else {
      RunSnoc(c, Apply(c, s, evs[0]), evs[1..], t, ev);
      assert (evs + [ev])[1..] == evs[1..] + [ev];
    }
  }

  ghost predicate Reachable(c: Config, t: State) {
    exists evs :: Run(c, Init(), evs, t)
  }

  lemma Reach(c: Config, t: State, ev: Event, u: State)
    requires Reachable(c, t) && Enabled(t, ev) && u == Apply(c, t, ev)
    ensures Reachable(c, u)
  {
    var evs :| Run(c, Init(), evs, t);
    RunSnoc(c, Init(), evs, t, ev);
  }

  /** A Get that finds nothing in the map ... */
  lemma GetMisses(c: Config, s: State, a: nat, asset: int) returns (t: State)
    requires Reachable(c, s) && At(s, a).Done? && asset !in s.entries
    ensures Reachable(c, t) && t == Move(s, a, GetJoin(asset, false))
  {
    var t0 := Move(s, a, GetLookup(asset, false));
    Reach(c, s, BeginGet(a, asset), t0);
    t := Move(s, a, GetJoin(asset, false));
    Reach(c, t0, LookupStep(a), t);
  }

  /** ... starts a dial of its own, ... */
  lemma GetStartsDial(c: Config, s: State, a: nat, asset: int) returns (t: State)
    requires Reachable(c, s)
    requires At(s, a).Done? && asset !in s.entries && asset !in s.running
    ensures Reachable(c, t)
    ensures t == s.(actors := s.actors[a := GetWait(asset, false, |s.flights|)],
                    running := s.running[asset := |s.flights|],
                    flights := s.flights + [Flight(asset, FDial)])
  {
    var t1 := GetMisses(c, s, a, asset);
    var t2 := Move(s.(running := s.running[asset := |s.flights|], flights := s.flights + [Flight(asset, FCheck)]),
                   a, GetWait(asset, false, |s.flights|));
    Reach(c, t1, JoinStep(a), t2);
    t := SetFlight(t2, |s.flights|, FDial);
    Reach(c, t2, FlightCheck(|s.flights|), t);
  }

  /** ... the dial publishes a new entry, ... */
  lemma DialPublishes(c: Config, s: State, f: nat) returns (t: State)
    requires Reachable(c, s) && f < |s.flights| && s.flights[f].pc.FDial?
    ensures Reachable(c, t)
    ensures var asset := s.flights[f].asset;
            t == s.(heap := s.heap + [Dialed(asset, s.now)], entries := s.entries[asset := |s.heap|],
                    published := s.published + {|s.heap|}, running := s.running - {asset},
                    flights := s.flights[f := Flight(asset, FDone(Got(|s.heap|)))])
  {
    var asset, e := s.flights[f].asset, |s.heap|;
    var t0 := SetFlight(s.(heap := s.heap + [Dialed(asset, s.now)]), f, FPublish(e));
    Reach(c, s, DialOk(f), t0);
    var t1 := SetFlight(t0.(entries := s.entries[asset := e], published := s.published + {e}), f, FReturn(Got(e)));
    Reach(c, t0, FlightPublish(f), t1);
    t := SetFlight(t1.(running := s.running - {asset}), f, FDone(Got(e)));
    Reach(c, t1, FlightEnd(f), t);
  }

  /** ... and actor a borrows it. */
  lemma FreshGet(c: Config, s: State, a: nat, asset: int) returns (t: State)
    requires Reachable(c, s)
    requires At(s, a).Done? && asset !in s.entries && asset !in s.running
    ensures Reachable(c, t)
    ensures t.entries == s.entries[asset := |s.heap|] && t.heap == s.heap + [Dialed(asset, s.now).Acquired(s.now)]
    ensures t.actors == s.actors[a := Borrowed(asset, false, |s.heap|)] && t.running == s.running && t.now == s.now
  {
    var t0 := GetStartsDial(c, s, a, asset);
    var t1 := DialPublishes(c, t0, |s.flights|);
    var e := |s.heap|;
    assert t1.heap[e] == Dialed(asset, s.now);
    var t2 := Move(t1, a, GetTake(asset, false, e));
    Reach(c, t1, WaitStep(a, false), t2);
    t := Move(SetEntry(t2, e, Dialed(asset, s.now).Acquired(s.now)), a, Borrowed(asset, false, e));
    Reach(c, t2, TakeStep(a), t);
  }

  /** Actor 0 borrows entry 0, a Remove takes it away, and actor 2 borrows its successor. */
  lemma BorrowReplaced(c: Config) returns (t: State)
    ensures Reachable(c, t)
    ensures t.entries == map[7 := 1] && t.heap == [Dialed(7, 0).Acquired(0), Dialed(7, 0).Acquired(0)] && t.now == 0
    ensures t.actors == map[0 := Borrowed(7, false, 0), 1 := Drain({0}, {}, End), 2 := Borrowed(7, false, 1)]
  {
    assert Run(c, Init(), [], Init());
    var t0 := FreshGet(c, Init(), 0, 7);
    var t1 := Move(t0, 1, RemoveAt(7));
    Reach(c, t0, BeginRemove(1, 7), t1);
    var t2 := Move(Unmap(t1, 7), 1, Drain({0}, {}, End));
    Reach(c, t1, RemoveStep(1), t2);
    t := FreshGet(c, t2, 2, 7);
  }

  /** A failed channel open leads actor 0 to release whatever the map holds for the asset. */
  lemma ReleaseFinds(c: Config, s: State, a: nat, i: nat, j: nat) returns (t: State)
    requires Reachable(c, s) && i < |s.heap| && At(s, a) == Borrowed(7, false, i) && s.entries == map[7 := j]
    ensures Reachable(c, t) && t == Move(s, a, RelHit(7, i, j))
  {
    var t1 := Move(s, a, RelLookup(7, i));
    Reach(c, s, ChannelStep(a, OpenFailed), t1);
    t := Move(s, a, RelHit(7, i, j));
    Reach(c, t1, RelLookupStep(a), t);
  }

  /** The old borrower's Release lowers the count of the new entry. */
  lemma ReleaseHitsSuccessor(c: Config) returns (t: State)
    ensures Reachable(c, t)
    ensures t.entries == map[7 := 1] && t.now == 0 && |t.heap| == 2
    ensures t.heap[1] == Dialed(7, 0)
    ensures t.actors == map[0 := Done, 1 := Drain({0}, {}, End), 2 := Borrowed(7, false, 1)]
  {
    var t0 := BorrowReplaced(c);
    var t1 := ReleaseFinds(c, t0, 0, 0, 1);
    t := ReleaseLowers(c, t1, 0, 1);
    assert t1.heap[1].Released(0) == Dialed(7, 0);
  }

  lemma ReleaseLowers(c: Config, s: State, a: nat, j: nat) returns (t: State)
    requires Reachable(c, s) && At(s, a).RelHit? && At(s, a).hit == j && j < |s.heap|
    ensures Reachable(c, t) && t == Move(SetEntry(s, j, s.heap[j].Released(s.now)), a, Done)
  {
    t := Move(SetEntry(s, j, s.heap[j].Released(s.now)), a, Done);
    Reach(c, s, RelHitStep(a), t);
  }

  lemma SweepStarts(c: Config, s: State, d: nat, a: nat) returns (t: State)
    requires Reachable(c, s) && s.entries == map[7 := 1] && At(s, a).Done?
    ensures Reachable(c, t) && t == Move(s.(now := s.now + d), a, Sweep({1}, {}))
  {
    var t1 := s.(now := s.now + d);
    Reach(c, s, Tick(d), t1);
    t := Move(t1, a, Sweep({1}, {}));
    assert Snapshot(t1) == {1} by {
      assert t1.entries[7] == 1;
    }
    Reach(c, t1, BeginSweep(a), t);
  }

  /** Taking a borrowed entry out of the map. After a Remove replaced it,
      the old borrower's Release lowers the count of the new one: here entry 1 has one
      borrower and count 0, and idle cleanup then retires it while it is in use. */
  lemma RemoveBreaksCounts(c: Config) returns (t: State)
    requires c.idleTime >= 0
    ensures Reachable(c, t)
    ensures |t.heap| == 2 && t.heap[1].refCount == 0 && Borrowers(t, 1) == {2} && t.heap[1].closed
  {
    var t0 := ReleaseHitsSuccessor(c);
    var t1 := SweepStarts(c, t0, c.idleTime + 1, 3);
    assert {1} - {1} == {} && {} + {1} == {1};
    t := Move(SetEntry(t1, 1, Dialed(7, 0).Retired()), 3, Sweep({}, {1}));
    Reach(c, t1, SweepOne(3, 1), t);
  }

  /** Entry 0 is in the map and nobody holds it. */
  lemma UnheldEntry(c: Config) returns (t: State)
    ensures Reachable(c, t)
    ensures t.entries == map[7 := 0] && t.heap == [Dialed(7, 0)] && t.now == 0 && t.actors == map[0 := Done]
  {
    assert Run(c, Init(), [], Init());
    var t0 := FreshGet(c, Init(), 0, 7);
    var t1 := ReleaseFinds(c, t0, 0, 0, 0);
    t := ReleaseLowers(c, t1, 0, 0);
    assert t1.heap[0].Released(0) == Dialed(7, 0);
  }

  /** Actor 1 has probed it and is about to acquire it. */
  lemma ProbedEntry(c: Config) returns (t: State)
    ensures Reachable(c, t)
    ensures t.entries == map[7 := 0] && t.heap == [Dialed(7, 0)] && t.now == 0
    ensures t.actors == map[0 := Done, 1 := GetAcquire(7, false, 0)]
  {
    var t0 := UnheldEntry(c);
    var t1 := Move(t0, 1, GetLookup(7, false));
    Reach(c, t0, BeginGet(1, 7), t1);
    var t2 := Move(t1, 1, GetJudge(7, false, 0));
    Reach(c, t1, LookupStep(1), t2);
    var t3 := Move(t2, 1, GetPing(7, false, 0));
    Reach(c, t2, JudgeStep(1), t3);
    t := Move(t3, 1, GetAcquire(7, false, 0));
    Reach(c, t3, PingStep(1, Alive), t);
  }

  /** A Remove takes the unheld entry out of the map, which is guarded. */
  lemma RemoveIntervenes(c: Config) returns (t: State)
    ensures Reachable(c, t)
    ensures t.entries == map[] && t.heap == [Dialed(7, 0)] && t.now == 0
    ensures t.actors == map[0 := Done, 1 := GetAcquire(7, false, 0), 2 := Drain({0}, {}, End)]
  {
    var t0 := ProbedEntry(c);
    var t1 := Move(t0, 2, RemoveAt(7));
    Reach(c, t0, BeginRemove(2, 7), t1);
    t := Move(Unmap(t1, 7), 2, Drain({0}, {}, End));
    Reach(c, t1, RemoveStep(2), t);
  }

  /** The acquisition that follows is not, ... */
  lemma AcquiresRemoved(c: Config, s: State) returns (t: State)
    requires Reachable(c, s) && s.entries == map[] && s.heap == [Dialed(7, 0)] && s.now == 0
    requires s.actors == map[0 := Done, 1 := GetAcquire(7, false, 0), 2 := Drain({0}, {}, End)]
    ensures BorrowedArePooled(s) && Enabled(s, AcquireStep(1)) && !Guarded(s, AcquireStep(1))
    ensures Reachable(c, t) && t.entries == map[] && t.heap == [Dialed(7, 0).Acquired(0)]
    ensures t.actors == map[0 := Done, 1 := Borrowed(7, false, 0), 2 := Drain({0}, {}, End)]
  {
    t := Move(SetEntry(s, 0, Dialed(7, 0).Acquired(0)), 1, Borrowed(7, false, 0));
    Reach(c, s, AcquireStep(1), t);
    assert forall i: nat :: Borrowers(s, i) == {};
  }

  /** ... and the entry is retired in use. */
  lemma AcquireAfterRemove(c: Config) returns (s: State, t: State)
    ensures Reachable(c, s) && BorrowedArePooled(s) && Enabled(s, AcquireStep(1)) && !Guarded(s, AcquireStep(1))
    ensures Reachable(c, t) && |t.heap| == 1 && t.heap[0].closed && Borrowers(t, 0) == {1} && t.entries == map[]
  {
    s := RemoveIntervenes(c);
    var t1 := AcquiresRemoved(c, s);
    t := Move(SetEntry(t1, 0, t1.heap[0].Retired()), 2, Drain({0} - {0}, {} + {0}, End));
    Reach(c, t1, DrainRetire(2, 0), t);
  }
}
