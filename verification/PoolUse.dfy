/** Borrowed connections of the SSH pool: they stay live and in the map exactly as long as nothing borrowed is
    taken out of the map and nothing outside the map is borrowed. */
module PoolUse {
  import opened PoolEntries
  import opened PoolMachine
  import opened PoolSafety
  import opened PoolCounts

  /** Entry i is live, and the map holds it. */
  ghost predicate Pooled(s: State, i: nat) {
    i < |s.heap| && !s.heap[i].closed && InMap(s, i)
  }

  /** What borrowers rely on. */
  ghost predicate BorrowedArePooled(s: State) {
    forall i: nat :: Borrowers(s, i) != {} ==> Pooled(s, i)
  }

  /** The map no longer holds entry i. */
  ghost predicate Off(s: State, i: nat) {
    i < |s.heap| && i in s.published && !InMap(s, i)
  }

  ghost predicate RetiresOff(s: State, pc: Pc) {
    forall i :: i in pc.ToRetire() ==> Off(s, i)
  }

  /** Whoever is about to retire an entry has taken it out of the map. */
  ghost predicate RetiringAreOff(s: State) {
    forall a :: a in s.actors ==> RetiresOff(s, s.actors[a])
  }

  ghost predicate UseInv(s: State) {
    Inv(s) && Counted(s) && BorrowedArePooled(s) && RetiringAreOff(s)
  }

  /** The entries an event takes out of the map to retire them afterwards. */
  function Taken(s: State, ev: Event): set<nat> {
    match ev
    case RemoveStep(a) =>
      if At(s, a).RemoveAt? && At(s, a).asset in s.entries then {s.entries[At(s, a).asset]} else {}
    case UnmapStep(a) =>
      var p := At(s, a);
      if p.GetUnmap? && p.asset in s.entries && s.entries[p.asset] == p.e then {p.e} else {}
    case BeginClose(_) => Snapshot(s)
    case _ => {}
  }

  /** What the pool would have to check: entries are taken out of the map only when nobody holds them, and a
      live entry is acquired only while the map still holds it. */
  ghost predicate Guarded(s: State, ev: Event)
    requires Enabled(s, ev)
  {
    && (forall i :: i in Taken(s, ev) ==> Borrowers(s, i) == {})
    && (ev.AcquireStep? || ev.TakeStep? ==> s.heap[At(s, ev.a).e].closed || InMap(s, At(s, ev.a).e))
  }

  // ---- what retiring entries do ----

  lemma EnvironmentKeepsOff(c: Config, s: State, ev: Event)
    requires Inv(s) && Enabled(s, ev) && Environment(ev)
    ensures forall i: nat :: Off(s, i) ==> Off(Apply(c, s, ev), i)
  {
    if ev.FlightPublish? {
      assert FlightInv(s, ev.f);
    }
  }

  /** Actors only take entries out of the map. */
  lemma MapShrinks(c: Config, s: State, ev: Event)
    requires Enabled(s, ev) && !Environment(ev) && !Quiet(ev)
    ensures var t := Apply(c, s, ev);
            && (forall k :: k in t.entries ==> k in s.entries && t.entries[k] == s.entries[k])
            && |t.heap| == |s.heap| && t.published == s.published
            && forall i :: 0 <= i < |s.heap| ==> t.heap[i].asset == s.heap[i].asset
  {
  }

  lemma KeepsOff(c: Config, s: State, ev: Event)
    requires Inv(s) && Enabled(s, ev)
    ensures forall i: nat :: Off(s, i) ==> Off(Apply(c, s, ev), i)
  {
    if Environment(ev) {
      EnvironmentKeepsOff(c, s, ev);
    } else if !Quiet(ev) {
      MapShrinks(c, s, ev);
    }
  }

  predicate TakesOut(ev: Event) {
    ev.RemoveStep? || ev.UnmapStep? || ev.BeginClose?
  }

  lemma TakenAreOff(c: Config, s: State, ev: Event)
    requires Inv(s) && Enabled(s, ev) && TakesOut(ev)
    ensures RetiresOff(Apply(c, s, ev), Apply(c, s, ev).actors[ev.a])
  {
    assert PcInv(s, At(s, ev.a));
  }

  lemma OthersRetireNoMore(c: Config, s: State, ev: Event)
    requires Enabled(s, ev) && !Environment(ev) && !TakesOut(ev)
    ensures ev.a in Apply(c, s, ev).actors && Apply(c, s, ev).actors[ev.a].ToRetire() <= At(s, ev.a).ToRetire()
  {
  }

  lemma MoverRetiresOff(c: Config, s: State, ev: Event)
    requires Inv(s) && RetiringAreOff(s) && Enabled(s, ev) && !Environment(ev)
    ensures ev.a in Apply(c, s, ev).actors && RetiresOff(Apply(c, s, ev), Apply(c, s, ev).actors[ev.a])
  {
    if TakesOut(ev) {
      TakenAreOff(c, s, ev);
    } else {
      OthersRetireNoMore(c, s, ev);
      KeepsOff(c, s, ev);
      assert ev.a in s.actors ==> RetiresOff(s, s.actors[ev.a]);
    }
  }

  lemma RetiringStayOff(c: Config, s: State, ev: Event)
    requires Inv(s) && RetiringAreOff(s) && Enabled(s, ev)
    ensures RetiringAreOff(Apply(c, s, ev))
  {
    var t := Apply(c, s, ev);
    KeepsOff(c, s, ev);
    OneActorMoves(c, s, ev);
    if !Environment(ev) {
      MoverRetiresOff(c, s, ev);
    }
    forall a | a in t.actors
      ensures RetiresOff(t, t.actors[a])
    {
      assert a in s.actors ==> RetiresOff(s, s.actors[a]);
    }
  }

  // ---- every release finds its own entry ----

  lemma HeldIsPooled(s: State, a: nat, i: nat)
    requires Inv(s) && BorrowedArePooled(s) && At(s, a).Borrows(i)
    ensures Pooled(s, i) && s.heap[i].asset == At(s, a).asset
  {
    assert PcInv(s, At(s, a)) && a in Borrowers(s, i);
  }

  lemma PooledIsOwn(s: State, ev: Event)
    requires Inv(s) && BorrowedArePooled(s) && Enabled(s, ev)
    ensures OwnStep(s, ev)
  {
    if ev.RelLookupStep? || Refuses(ev) {
      HeldIsPooled(s, ev.a, At(s, ev.a).e);
    }
  }

  // ---- who stops being pooled ----

  /** Events that change neither map nor entries, and borrow nothing new. */
  predicate Quiet(ev: Event) {
    || ev.BeginGet? || ev.BeginRemove? || ev.BeginSweep? || ev.LookupStep? || ev.JudgeStep? || ev.PingStep?
    || ev.JoinStep? || ev.WaitStep? || ev.WaitCancel? || ev.TunnelCloseStep? || ev.RelLookupStep? || ev.DrainDone?
    || (ev.ChannelStep? && !ev.reply.Prohibited?)
  }

  /** What is no longer pooled has no borrower left. */
  lemma OthersStayPooled(s: State, t: State, a: nat, pc: Pc, gone: set<nat>)
    requires BorrowedArePooled(s) && t.actors == s.actors[a := pc]
    requires forall i: nat :: Pooled(s, i) && i !in gone ==> Pooled(t, i)
    requires forall i: nat :: pc.Borrows(i) ==> At(s, a).Borrows(i)
    requires forall i: nat :: i in gone ==> Borrowers(t, i) == {}
    ensures BorrowedArePooled(t)
  {
    BorrowersMove(s, t, a, pc);
    forall i: nat | Borrowers(t, i) != {}
      ensures Borrowers(s, i) != {}
    {
      var b :| b in Borrowers(t, i);
      assert b in Borrowers(s, i);
    }
  }

  lemma QuietKeepsPooled(c: Config, s: State, ev: Event)
    requires BorrowedArePooled(s) && Enabled(s, ev) && Quiet(ev)
    ensures BorrowedArePooled(Apply(c, s, ev))
  {
    var t := Apply(c, s, ev);
    OneActorMoves(c, s, ev);
    assert t.heap == s.heap && t.entries == s.entries;
    OthersStayPooled(s, t, ev.a, t.actors[ev.a], {});
  }

  lemma EnvironmentKeepsPooled(c: Config, s: State, ev: Event)
    requires Inv(s) && BorrowedArePooled(s) && Enabled(s, ev) && Environment(ev)
    ensures BorrowedArePooled(Apply(c, s, ev))
  {
    var t := Apply(c, s, ev);
    OneActorMoves(c, s, ev);
    if ev.FlightPublish? {
      assert FlightInv(s, ev.f);
    }
    forall i: nat
      ensures Borrowers(t, i) == Borrowers(s, i) && (Pooled(s, i) ==> Pooled(t, i))
    {
    }
  }

  lemma GiveBackKeepsPooled(c: Config, s: State, a: nat)
    requires UseInv(s) && Enabled(s, RelHitStep(a))
    ensures BorrowedArePooled(Apply(c, s, RelHitStep(a)))
  {
    OthersStayPooled(s, Apply(c, s, RelHitStep(a)), a, Done, {});
  }

  lemma RefusalKeepsPooled(c: Config, s: State, a: nat)
    requires UseInv(s) && Enabled(s, ChannelStep(a, Prohibited))
    ensures BorrowedArePooled(Apply(c, s, ChannelStep(a, Prohibited)))
  {
    var t, e := Apply(c, s, ChannelStep(a, Prohibited)), At(s, a).e;
    PooledIsOwn(s, ChannelStep(a, Prohibited));
    StepCountsExactlyWhenOwn(c, s, ChannelStep(a, Prohibited));
    assert PcInv(s, At(s, a));
    var gone := if s.heap[e].RefusalRetires(s.now, c.redialInterval) then {e} else {};
    assert t.heap[e].refCount == |Borrowers(t, e)|;
    OthersStayPooled(s, t, a, t.actors[a], gone);
  }

  lemma SweepOneKeepsPooled(c: Config, s: State, a: nat, i: nat)
    requires UseInv(s) && Enabled(s, SweepOne(a, i))
    ensures BorrowedArePooled(Apply(c, s, SweepOne(a, i)))
  {
    var t := Apply(c, s, SweepOne(a, i));
    var gone := if s.heap[i].IdleExpired(s.now, c.idleTime) then {i} else {};
    assert s.heap[i].refCount == |Borrowers(s, i)|;
    SameBorrowers(s, t, a, t.actors[a]);
    OthersStayPooled(s, t, a, t.actors[a], gone);
  }

  lemma DrainKeepsPooled(c: Config, s: State, ev: Event)
    requires UseInv(s) && Enabled(s, ev)
    requires ev.SweepUnmap? || ev.DrainRetire? || ev.DrainClose?
    ensures BorrowedArePooled(Apply(c, s, ev))
  {
    var t := Apply(c, s, ev);
    assert PcInv(s, s.actors[ev.a]) && RetiresOff(s, s.actors[ev.a]);
    if ev.DrainRetire? {
      assert ev.i in s.actors[ev.a].ToRetire();
    }
    OthersStayPooled(s, t, ev.a, t.actors[ev.a], {});
  }

  /** An acquired entry is pooled exactly when the map held it. */
  lemma BorrowPooledExactlyWhen(s: State, t: State, a: nat, pc: Pc, e: nat)
    requires BorrowedArePooled(s) && e < |s.heap| && !s.heap[e].closed
    requires t.actors == s.actors[a := pc] && forall i: nat :: Pooled(s, i) <==> Pooled(t, i)
    requires forall i: nat :: !At(s, a).Borrows(i) && (pc.Borrows(i) <==> i == e)
    ensures BorrowedArePooled(t) <==> InMap(s, e)
  {
    BorrowersMove(s, t, a, pc);
    assert a in Borrowers(t, e);
    forall i: nat | i != e
      ensures Borrowers(t, i) == Borrowers(s, i)
    {
      assert a !in Borrowers(s, i);
    }
  }

  lemma AcquiredArePooledExactlyWhen(c: Config, s: State, ev: Event)
    requires UseInv(s) && Enabled(s, ev) && (ev.AcquireStep? || ev.TakeStep?)
    ensures BorrowedArePooled(Apply(c, s, ev)) <==> Guarded(s, ev)
  {
    var t, e := Apply(c, s, ev), At(s, ev.a).e;
    if s.heap[e].closed {
      OthersStayPooled(s, t, ev.a, t.actors[ev.a], {});
    } else {
      assert t.heap == s.heap[e := s.heap[e].Acquired(s.now)] && t.entries == s.entries;
      BorrowPooledExactlyWhen(s, t, ev.a, t.actors[ev.a], e);
    }
  }

  /** Entries taken out of the map leave their borrowers unpooled. */
  lemma TakenArePooledExactlyWhen(c: Config, s: State, ev: Event)
    requires UseInv(s) && Enabled(s, ev) && TakesOut(ev)
    ensures BorrowedArePooled(Apply(c, s, ev)) <==> Guarded(s, ev)
  {
    var t := Apply(c, s, ev);
    TakenLeave(c, s, ev);
    SameBorrowers(s, t, ev.a, t.actors[ev.a]);
    if Guarded(s, ev) {
      OthersStayPooled(s, t, ev.a, t.actors[ev.a], Taken(s, ev));
    } else {
      var i :| i in Taken(s, ev) && Borrowers(s, i) != {};
      assert Borrowers(t, i) != {} && !Pooled(t, i);
    }
  }

  lemma TakenLeave(c: Config, s: State, ev: Event)
    requires Inv(s) && Enabled(s, ev) && TakesOut(ev)
    ensures forall i: nat :: i in Taken(s, ev) ==> !Pooled(Apply(c, s, ev), i)
    ensures forall i: nat :: Pooled(s, i) && i !in Taken(s, ev) ==> Pooled(Apply(c, s, ev), i)
    ensures forall i: nat :: !Apply(c, s, ev).actors[ev.a].Borrows(i) && !At(s, ev.a).Borrows(i)
  {
    assert PcInv(s, At(s, ev.a));
  }

  lemma OthersAreGuarded(s: State, ev: Event)
    requires Enabled(s, ev)
    requires !ev.AcquireStep? && !ev.TakeStep? && !TakesOut(ev)
    ensures Guarded(s, ev)
  {
  }

  lemma StepKeepsPooledExactlyWhen(c: Config, s: State, ev: Event)
    requires UseInv(s) && Enabled(s, ev)
    ensures BorrowedArePooled(Apply(c, s, ev)) <==> Guarded(s, ev)
  {
    if ev.AcquireStep? || ev.TakeStep? {
      AcquiredArePooledExactlyWhen(c, s, ev);
    } else if TakesOut(ev) {
      TakenArePooledExactlyWhen(c, s, ev);
    } else {
      OthersAreGuarded(s, ev);
      if Quiet(ev) {
        QuietKeepsPooled(c, s, ev);
      } else if Environment(ev) {
        EnvironmentKeepsPooled(c, s, ev);
      } else if ev.RelHitStep? {
        GiveBackKeepsPooled(c, s, ev.a);
      } else if Refuses(ev) {
        RefusalKeepsPooled(c, s, ev.a);
      } else if ev.SweepOne? {
        SweepOneKeepsPooled(c, s, ev.a, ev.i);
      } else {
        DrainKeepsPooled(c, s, ev);
      }
    }
  }

  /** Main result, for one event of any kind: borrowed entries stay pooled exactly when the event is guarded;
      counts stay right either way. */
  lemma StepKeepsUseExactlyWhen(c: Config, s: State, ev: Event)
    requires UseInv(s) && Enabled(s, ev)
    ensures UseInv(Apply(c, s, ev)) <==> Guarded(s, ev)
    ensures Counted(Apply(c, s, ev)) && (UseInv(Apply(c, s, ev)) <==> BorrowedArePooled(Apply(c, s, ev)))
  {
    StepKeepsInv(c, s, ev);
    PooledIsOwn(s, ev);
    StepCountsExactlyWhenOwn(c, s, ev);
    RetiringStayOff(c, s, ev);
    StepKeepsPooledExactlyWhen(c, s, ev);
  }

  // ---- runs ----

  /** Every event of the run is guarded. */
  ghost predicate AllGuarded(c: Config, s: State, evs: seq<Event>)
    decreases |evs|
  {
    evs == [] || (Enabled(s, evs[0]) && Guarded(s, evs[0]) && AllGuarded(c, Apply(c, s, evs[0]), evs[1..]))
  }

  /** In every state of the run the borrowed entries are live and in the map. */
  ghost predicate AlwaysPooled(c: Config, s: State, evs: seq<Event>)
    decreases |evs|
  {
    BorrowedArePooled(s) && (evs == [] || (Enabled(s, evs[0]) && AlwaysPooled(c, Apply(c, s, evs[0]), evs[1..])))
  }

  lemma {:induction false} RunKeepsUseExactlyWhen(c: Config, s: State, evs: seq<Event>, t: State)
    requires UseInv(s) && Run(c, s, evs, t)
    ensures AlwaysPooled(c, s, evs) <==> AllGuarded(c, s, evs)
    ensures AllGuarded(c, s, evs) ==> UseInv(t) && AllOwn(c, s, evs)
    decreases |evs|
  {
    if evs != [] {
      var u := Apply(c, s, evs[0]);
      StepKeepsUseExactlyWhen(c, s, evs[0]);
      PooledIsOwn(s, evs[0]);
      if Guarded(s, evs[0]) {
        RunKeepsUseExactlyWhen(c, u, evs[1..], t);
      } else {
        assert !BorrowedArePooled(u);
      }
    }
  }

  lemma InitIsUsed()
    ensures UseInv(Init())
  {
    InitIsCounted();
  }

  /** Main result: in a run of any events, borrowed entries are live and in the map throughout exactly when
      every event is guarded; then every release and refusal finds its own entry, so that counts are right too
      (PoolCounts.RefCountIsBorrowers). */
  lemma BorrowedStayLiveExactlyWhen(c: Config, evs: seq<Event>, t: State)
    requires Run(c, Init(), evs, t)
    ensures AlwaysPooled(c, Init(), evs) <==> AllGuarded(c, Init(), evs)
    ensures AllGuarded(c, Init(), evs) ==> AllOwn(c, Init(), evs) && BorrowedArePooled(t)
  {
    InitIsUsed();
    RunKeepsUseExactlyWhen(c, Init(), evs, t);
  }

  /** In such a run every refusal is of a live entry, its caller's own, and so is logged when it retires it. */
  lemma RefusalsAreOfLive(c: Config, evs: seq<Event>, t: State, a: nat)
    requires Run(c, Init(), evs, t) && AllGuarded(c, Init(), evs) && Enabled(t, ChannelStep(a, Prohibited))
    ensures !t.heap[At(t, a).e].closed && FindsOwn(t, a)
  {
    InitIsUsed();
    RunKeepsUseExactlyWhen(c, Init(), evs, t);
    PooledIsOwn(t, ChannelStep(a, Prohibited));
    HeldIsPooled(t, a, At(t, a).e);
  }
}
