/** No leak and no double close in any interleaving of the SSH pool's operations. */
module PoolSafety {
  import opened PoolEntries
  import opened PoolMachine

  /** Entry i is in the map under its own asset. */
  ghost predicate InMap(s: State, i: nat)
    requires i < |s.heap|
  {
    s.heap[i].asset in s.entries && s.entries[s.heap[i].asset] == i
  }

  /** Entry i was dialed by the running call of its asset, which is about to publish it. */
  ghost predicate InFlight(s: State, i: nat)
    requires i < |s.heap|
  {
    var asset := s.heap[i].asset;
    asset in s.running && s.running[asset] < |s.flights| && s.flights[s.running[asset]].pc == FPublish(i)
  }

  ghost predicate SomeoneRetires(s: State, i: nat) {
    exists a :: a in s.actors && i in s.actors[a].ToRetire()
  }

  ghost predicate SomeoneCloses(s: State, i: nat) {
    exists a :: a in s.actors && i in s.actors[a].ToClose()
  }

  ghost predicate EntryInv(s: State, i: nat)
    requires i < |s.heap|
  {
    var e := s.heap[i];
    && (i in s.published || (!e.closed && e.refCount == 0 && InFlight(s, i)))
    && (e.closed || InMap(s, i) || InFlight(s, i) || SomeoneRetires(s, i))
    && (e.closed && !e.onceDone ==> SomeoneCloses(s, i))
    && (e.onceDone ==> e.closed)
    && e.connCloses == (if e.onceDone then 1 else 0)
  }

  ghost predicate MapInv(s: State) {
    forall k :: k in s.entries ==>
      s.entries[k] < |s.heap| && s.heap[s.entries[k]].asset == k && s.entries[k] in s.published
  }

  /** The map holds nothing live at an asset a dial is under way for. */
  ghost predicate NothingLive(s: State, asset: int)
    requires MapInv(s)
  {
    asset in s.entries ==> s.heap[s.entries[asset]].closed
  }

  ghost predicate FlightInv(s: State, f: nat)
    requires MapInv(s) && f < |s.flights|
  {
    var asset, pc := s.flights[f].asset, s.flights[f].pc;
    && (!pc.FDone? ==> asset in s.running && s.running[asset] == f)
    && (pc.FJudge? ==> Known(s, asset, pc.e) && (asset in s.entries ==> s.entries[asset] == pc.e))
    && (pc.FDial? ==> NothingLive(s, asset))
    && (pc.FPublish? ==>
          NothingLive(s, asset) && pc.e < |s.heap| && s.heap[pc.e].asset == asset && pc.e !in s.published)
    && ((pc.FReturn? || pc.FDone?) && pc.r.Got? ==> Known(s, asset, pc.r.e))
  }

  /** An identity other code may hold: a published entry of that asset. */
  ghost predicate Known(s: State, asset: int, i: nat) {
    i < |s.heap| && s.heap[i].asset == asset && i in s.published
  }

  ghost predicate PcInv(s: State, pc: Pc) {
    && (pc.GetJudge? || pc.GetPing? || pc.GetAcquire? || pc.GetUnmap? || pc.GetTake? ==> Known(s, pc.asset, pc.e))
    && (pc.Borrowed? || pc.Tunnel? || pc.RelLookup? || pc.RelHit? ==> Known(s, pc.asset, pc.e))
    && (pc.RelHit? ==> Known(s, pc.asset, pc.hit))
    && (pc.GetWait? ==> pc.f < |s.flights| && s.flights[pc.f].asset == pc.asset)
    && (forall i :: i in pc.ToRetire() ==> i < |s.heap| && i in s.published)
    && (forall i :: i in pc.ToClose() ==> i < |s.heap| && i in s.published && s.heap[i].closed)
    && (pc.Sweep? ==> forall i :: i in pc.todo ==> i < |s.heap| && i in s.published)
  }

  ghost predicate RunningInv(s: State) {
    forall k :: k in s.running ==>
      s.running[k] < |s.flights| && s.flights[s.running[k]].asset == k && !s.flights[s.running[k]].pc.FDone?
  }

  ghost predicate Inv(s: State) {
    && MapInv(s)
    && RunningInv(s)
    && (forall i :: i in s.published ==> i < |s.heap|)
    && (forall f :: 0 <= f < |s.flights| ==> FlightInv(s, f))
    && (forall a :: a in s.actors ==> PcInv(s, s.actors[a]))
    && (forall i :: 0 <= i < |s.heap| ==> EntryInv(s, i))
  }

  /** Moving one actor is safe when it drops no duty that is still open. */
  lemma MoveKeepsInv(s: State, a: nat, pc: Pc)
    requires Inv(s) && PcInv(s, pc)
    requires forall i :: i in At(s, a).ToRetire() - pc.ToRetire() ==> i < |s.heap| && s.heap[i].closed
    requires forall i :: i in At(s, a).ToClose() - pc.ToClose() ==> i < |s.heap| && s.heap[i].onceDone
    ensures Inv(Move(s, a, pc))
  {
    var t := Move(s, a, pc);
    forall f | 0 <= f < |t.flights|
      ensures FlightInv(t, f)
    {
      assert FlightInv(s, f);
    }
    forall i | 0 <= i < |t.heap|
      ensures EntryInv(t, i)
    {
      assert EntryInv(s, i);
      if SomeoneRetires(s, i) && !s.heap[i].closed {
        var b :| b in s.actors && i in s.actors[b].ToRetire();
        assert b in t.actors && i in t.actors[b].ToRetire();
      }
      if SomeoneCloses(s, i) && !s.heap[i].onceDone {
        var b :| b in s.actors && i in s.actors[b].ToClose();
        assert b in t.actors && i in t.actors[b].ToClose();
      }
    }
  }

  /** Changing one entry in place: its identity stays, retirement and closing are final. */
  lemma SetKeepsInv(s: State, i: nat, e: Entry)
    requires Inv(s) && i < |s.heap| && i in s.published
    requires e.asset == s.heap[i].asset && e.closed == s.heap[i].closed
    requires || (e.onceDone == s.heap[i].onceDone && e.connCloses == s.heap[i].connCloses)
             || (s.heap[i].closed && e == s.heap[i].ConnClosed())
    ensures Inv(SetEntry(s, i, e))
  {
    var t := SetEntry(s, i, e);
    forall a | a in t.actors
      ensures PcInv(t, t.actors[a])
    {
      assert PcInv(s, s.actors[a]);
    }
    forall f | 0 <= f < |t.flights|
      ensures FlightInv(t, f)
    {
      assert FlightInv(s, f);
    }
    forall j | 0 <= j < |t.heap|
      ensures EntryInv(t, j)
    {
      assert EntryInv(s, j);
    }
  }

  /** Taking entries out of the map is safe when each is retired or about to be. */
  lemma ShrinkKeepsInv(s: State, m: map<int, nat>)
    requires Inv(s)
    requires m.Keys <= s.entries.Keys && forall k :: k in m ==> m[k] == s.entries[k]
    requires forall k :: k in s.entries && k !in m ==>
      s.entries[k] < |s.heap| && (s.heap[s.entries[k]].closed || SomeoneRetires(s, s.entries[k]))
    ensures Inv(s.(entries := m))
  {
    var t := s.(entries := m);
    forall f | 0 <= f < |t.flights|
      ensures FlightInv(t, f)
    {
      assert FlightInv(s, f);
    }
    forall i | 0 <= i < |t.heap|
      ensures EntryInv(t, i)
    {
      assert EntryInv(s, i);
    }
  }

  /** Retiring entry i while its actor takes on the duty to close it. */
  lemma RetireKeepsInv(s: State, a: nat, i: nat, e: Entry, pc: Pc)
    requires Inv(s) && i < |s.heap| && i in s.published
    requires e.closed && e.asset == s.heap[i].asset
    requires e.onceDone == s.heap[i].onceDone && e.connCloses == s.heap[i].connCloses
    requires PcInv(SetEntry(s, i, e), pc) && i in pc.ToClose()
    requires At(s, a).ToRetire() - {i} <= pc.ToRetire() && At(s, a).ToClose() <= pc.ToClose()
    ensures Inv(Move(SetEntry(s, i, e), a, pc))
  {
    var t := Move(SetEntry(s, i, e), a, pc);
    assert t.actors[a] == pc;
    forall b | b in t.actors
      ensures PcInv(t, t.actors[b])
    {
      if b != a {
        assert PcInv(s, s.actors[b]);
      }
    }
    forall f | 0 <= f < |t.flights|
      ensures FlightInv(t, f)
    {
      assert FlightInv(s, f);
    }
    forall j | 0 <= j < |t.heap|
      ensures EntryInv(t, j)
    {
      assert EntryInv(s, j);
      if j != i {
        if SomeoneRetires(s, j) {
          var b :| b in s.actors && j in s.actors[b].ToRetire();
          assert b in t.actors && j in t.actors[b].ToRetire();
        }
        if SomeoneCloses(s, j) {
          var b :| b in s.actors && j in s.actors[b].ToClose();
          assert b in t.actors && j in t.actors[b].ToClose();
        }
      }
    }
  }

  /** A step of flight f that changes only its program counter. */
  lemma FlightMoveKeepsInv(s: State, f: nat, pc: FlightPc)
    requires Inv(s) && f < |s.flights| && !s.flights[f].pc.FDone? && !s.flights[f].pc.FPublish?
    requires !pc.FPublish? && !pc.FDone?
    requires FlightInv(SetFlight(s, f, pc), f)
    ensures Inv(SetFlight(s, f, pc))
  {
    var t := SetFlight(s, f, pc);
    forall g | 0 <= g < |t.flights|
      ensures FlightInv(t, g)
    {
      assert FlightInv(s, g);
    }
    forall i | 0 <= i < |t.heap|
      ensures EntryInv(t, i)
    {
      assert EntryInv(s, i);
    }
    forall a | a in t.actors
      ensures PcInv(t, t.actors[a])
    {
      assert PcInv(s, s.actors[a]);
    }
  }

  lemma JoinKeepsInv(s: State, a: nat)
    requires Inv(s) && At(s, a).GetJoin?
    ensures Inv(Join(s, a))
  {
    var p := At(s, a);
    if p.asset in s.running {
      MoveKeepsInv(s, a, GetWait(p.asset, p.last, s.running[p.asset]));
    } else {
      var f := |s.flights|;
      var t := s.(running := s.running[p.asset := f], flights := s.flights + [Flight(p.asset, FCheck)]);
      forall g | 0 <= g < |t.flights|
        ensures FlightInv(t, g)
      {
        if g < f {
          assert t.flights[g] == s.flights[g] && FlightInv(s, g);
        }
      }
      forall i | 0 <= i < |t.heap|
        ensures EntryInv(t, i)
      {
        assert EntryInv(s, i);
      }
      forall b | b in t.actors
        ensures PcInv(t, t.actors[b])
      {
        assert PcInv(s, s.actors[b]);
      }
      MoveKeepsInv(t, a, GetWait(p.asset, p.last, f));
    }
  }

  lemma RefuseKeepsInv(c: Config, s: State, a: nat)
    requires Inv(s) && At(s, a).Borrowed?
    ensures At(s, a).e < |s.heap| && Inv(Refuse(c, s, a))
  {
    var p := At(s, a);
    assert PcInv(s, p);
    if p.asset !in s.entries || s.entries[p.asset] != p.e {
      MoveKeepsInv(s, a, Continue(Redial(p.asset, p.last)));
    } else {
      var e := s.heap[p.e].Refused(s.now, c.redialInterval);
      if s.heap[p.e].RefusalRetires(s.now, c.redialInterval) {
        var pc := Drain({}, {p.e}, Redial(p.asset, p.last));
        RetireKeepsInv(s, a, p.e, e, pc);
        var t := Move(SetEntry(s, p.e, e), a, pc);
        ShrinkKeepsInv(t, t.entries - {p.asset});
        var u := t.(entries := t.entries - {p.asset});
        HistoryKeepsInv(u, Refuse(c, s, a).refusals);
        assert Refuse(c, s, a) == u.(refusals := Refuse(c, s, a).refusals);
      } else {
        SetKeepsInv(s, p.e, e);
        MoveKeepsInv(SetEntry(s, p.e, e), a, Done);
      }
    }
  }

  lemma HistoryKeepsInv(s: State, log: seq<Refusal>)
    requires Inv(s)
    ensures Inv(s.(refusals := log))
  {
    var t := s.(refusals := log);
    forall i | 0 <= i < |t.heap|
      ensures EntryInv(t, i)
    {
      assert EntryInv(s, i);
    }
    assert forall f :: 0 <= f < |t.flights| ==> FlightInv(s, f) ==> FlightInv(t, f);
  }

  lemma SweepKeepsInv(c: Config, s: State, a: nat, i: nat)
    requires Inv(s) && Enabled(s, SweepOne(a, i))
    ensures Inv(SweepEntry(c, s, a, i))
  {
    var p := At(s, a);
    assert PcInv(s, p);
    if s.heap[i].IdleExpired(s.now, c.idleTime) {
      RetireKeepsInv(s, a, i, s.heap[i].Retired(), Sweep(p.todo - {i}, p.idle + {i}));
    } else {
      var pc := Sweep(p.todo - {i}, p.idle);
      assert forall j :: j in pc.todo ==> j in p.todo;
      assert pc.ToClose() == p.ToClose() && pc.ToRetire() == p.ToRetire() == {};
      assert PcInv(s, pc);
      MoveKeepsInv(s, a, pc);
    }
  }

  lemma SweepUnmapKeepsInv(c: Config, s: State, a: nat)
    requires Inv(s) && Enabled(s, SweepUnmap(a))
    ensures Inv(Apply(c, s, SweepUnmap(a)))
  {
    var p := At(s, a);
    assert PcInv(s, p);
    var pc := Drain({}, p.idle, End);
    MoveKeepsInv(s, a, pc);
    ShrinkKeepsInv(Move(s, a, pc), map k | k in s.entries && s.entries[k] !in p.idle :: s.entries[k]);
  }

  lemma DrainRetireKeepsInv(c: Config, s: State, a: nat, i: nat)
    requires Inv(s) && Enabled(s, DrainRetire(a, i))
    ensures Inv(Apply(c, s, DrainRetire(a, i)))
  {
    var p := At(s, a);
    assert PcInv(s, p);
    var pc := Drain(p.retire - {i}, p.close + {i}, p.after);
    assert i in p.ToRetire() && forall j :: j in pc.ToRetire() ==> j in p.ToRetire();
    assert forall j :: j in pc.ToClose() ==> j == i || j in p.ToClose();
    RetireKeepsInv(s, a, i, s.heap[i].Retired(), pc);
  }

  lemma DrainCloseKeepsInv(c: Config, s: State, a: nat, i: nat)
    requires Inv(s) && Enabled(s, DrainClose(a, i))
    ensures Inv(Apply(c, s, DrainClose(a, i)))
  {
    var p := At(s, a);
    assert PcInv(s, p);
    SetKeepsInv(s, i, s.heap[i].ConnClosed());
    MoveKeepsInv(SetEntry(s, i, s.heap[i].ConnClosed()), a, Drain(p.retire, p.close - {i}, p.after));
  }

  lemma FlightKeepsInv(c: Config, s: State, ev: Event)
    requires Inv(s) && Enabled(s, ev)
    requires ev.FlightCheck? || ev.FlightJudge? || ev.DialFail?
    ensures Inv(Apply(c, s, ev))
  {
    var f := ev.f;
    assert FlightInv(s, f);
    match ev
    case FlightCheck(_) =>
      var asset := s.flights[f].asset;
      FlightMoveKeepsInv(s, f, if asset in s.entries then FJudge(s.entries[asset]) else FDial);
    case FlightJudge(_) =>
      var e := s.flights[f].pc.e;
      FlightMoveKeepsInv(s, f, if s.heap[e].closed then FDial else FReturn(Got(e)));
    case DialFail(_, abandoned) =>
      FlightMoveKeepsInv(s, f, FReturn(Failed(abandoned)));
  }

  lemma DialKeepsInv(c: Config, s: State, f: nat)
    requires Inv(s) && Enabled(s, DialOk(f))
    ensures Inv(Apply(c, s, DialOk(f)))
  {
    var t := Apply(c, s, DialOk(f));
    var n := |s.heap|;
    assert FlightInv(s, f);
    forall g | 0 <= g < |t.flights|
      ensures FlightInv(t, g)
    {
      assert FlightInv(s, g);
    }
    forall i | 0 <= i < |t.heap|
      ensures EntryInv(t, i)
    {
      if i < n {
        assert t.heap[i] == s.heap[i] && EntryInv(s, i);
      }
    }
    forall a | a in t.actors
      ensures PcInv(t, t.actors[a])
    {
      assert PcInv(s, s.actors[a]);
    }
  }

  /** Publishing overwrites at most a retired entry. */
  lemma PublishKeepsInv(c: Config, s: State, f: nat)
    requires Inv(s) && Enabled(s, FlightPublish(f))
    ensures Inv(Apply(c, s, FlightPublish(f)))
    ensures var asset := s.flights[f].asset;
            asset in s.entries ==> s.entries[asset] < |s.heap| && s.heap[s.entries[asset]].closed
  {
    var t := Apply(c, s, FlightPublish(f));
    var asset, e := s.flights[f].asset, s.flights[f].pc.e;
    assert FlightInv(s, f);
    forall g | 0 <= g < |t.flights|
      ensures FlightInv(t, g)
    {
      assert FlightInv(s, g);
    }
    forall i | 0 <= i < |t.heap|
      ensures EntryInv(t, i)
    {
      assert EntryInv(s, i);
    }
    forall a | a in t.actors
      ensures PcInv(t, t.actors[a])
    {
      assert PcInv(s, s.actors[a]);
    }
  }

  lemma FlightEndKeepsInv(c: Config, s: State, f: nat)
    requires Inv(s) && Enabled(s, FlightEnd(f))
    ensures Inv(Apply(c, s, FlightEnd(f)))
  {
    var t := Apply(c, s, FlightEnd(f));
    assert FlightInv(s, f);
    forall g | 0 <= g < |t.flights|
      ensures FlightInv(t, g)
    {
      assert FlightInv(s, g);
    }
    forall i | 0 <= i < |t.heap|
      ensures EntryInv(t, i)
    {
      assert EntryInv(s, i);
    }
    forall a | a in t.actors
      ensures PcInv(t, t.actors[a])
    {
      assert PcInv(s, s.actors[a]);
    }
  }

  lemma ProbeKeepsInv(c: Config, s: State, ev: Event)
    requires Inv(s) && Enabled(s, ev)
    requires ev.LookupStep? || ev.JudgeStep? || ev.PingStep?
    ensures Inv(Apply(c, s, ev))
  {
    assert PcInv(s, At(s, ev.a));
    MoveKeepsInv(s, ev.a, Apply(c, s, ev).actors[ev.a]);
  }

  lemma WaitKeepsInv(c: Config, s: State, ev: Event)
    requires Inv(s) && Enabled(s, ev)
    requires ev.WaitStep? || ev.WaitCancel?
    ensures Inv(Apply(c, s, ev))
  {
    assert PcInv(s, At(s, ev.a)) && FlightInv(s, At(s, ev.a).f);
    MoveKeepsInv(s, ev.a, Apply(c, s, ev).actors[ev.a]);
  }

  lemma BorrowKeepsInv(c: Config, s: State, ev: Event)
    requires Inv(s) && Enabled(s, ev)
    requires (ev.ChannelStep? && !ev.reply.Prohibited?) || ev.TunnelCloseStep? || ev.RelLookupStep?
    ensures Inv(Apply(c, s, ev))
  {
    assert PcInv(s, At(s, ev.a));
    MoveKeepsInv(s, ev.a, Apply(c, s, ev).actors[ev.a]);
  }

  lemma AcquireKeepsInv(c: Config, s: State, ev: Event)
    requires Inv(s) && Enabled(s, ev)
    requires ev.AcquireStep? || ev.TakeStep?
    ensures Inv(Apply(c, s, ev))
  {
    var a, i := ev.a, At(s, ev.a).e;
    assert PcInv(s, At(s, a));
    var t := Apply(c, s, ev);
    if s.heap[i].closed {
      MoveKeepsInv(s, a, t.actors[a]);
    } else {
      SetKeepsInv(s, i, t.heap[i]);
      MoveKeepsInv(SetEntry(s, i, t.heap[i]), a, t.actors[a]);
    }
  }

  lemma GiveBackKeepsInv(c: Config, s: State, ev: Event)
    requires Inv(s) && Enabled(s, ev) && ev.RelHitStep?
    ensures Inv(Apply(c, s, ev))
  {
    var a, i := ev.a, At(s, ev.a).hit;
    assert PcInv(s, At(s, a));
    var t := Apply(c, s, ev);
    SetKeepsInv(s, i, t.heap[i]);
    MoveKeepsInv(SetEntry(s, i, t.heap[i]), a, t.actors[a]);
  }

  /** Forced removals: out of the map first, then this actor owns retirement and close. */
  lemma RemoveKeepsInv(s: State, a: nat, m: map<int, nat>, pc: Pc)
    requires Inv(s) && pc.Drain? && pc.close == {} && At(s, a).ToRetire() == At(s, a).ToClose() == {}
    requires forall i :: i in pc.retire ==> i < |s.heap| && i in s.published
    requires m.Keys <= s.entries.Keys && forall k :: k in m ==> m[k] == s.entries[k]
    requires forall k :: k in s.entries && k !in m ==> s.entries[k] in pc.retire
    ensures Inv(Move(s.(entries := m), a, pc))
  {
    MoveKeepsInv(s, a, pc);
    var t := Move(s, a, pc);
    assert t.actors[a] == pc;
    ShrinkKeepsInv(t, m);
    assert t.(entries := m) == Move(s.(entries := m), a, pc);
  }

  lemma ForcedKeepsInv(c: Config, s: State, ev: Event)
    requires Inv(s) && Enabled(s, ev)
    requires ev.UnmapStep? || ev.RemoveStep? || ev.BeginClose?
    ensures Inv(Apply(c, s, ev))
  {
    var a := ev.a;
    var p := At(s, a);
    assert PcInv(s, p);
    match ev
    case UnmapStep(_) =>
      RemoveKeepsInv(s, a, UnmapIf(s, p.asset, p.e).entries, Drain({p.e}, {}, ThenJoin(p.asset, p.last)));
    case RemoveStep(_) =>
      if p.asset in s.entries {
        RemoveKeepsInv(s, a, s.entries - {p.asset}, Drain({s.entries[p.asset]}, {}, End));
      } else {
        MoveKeepsInv(s, a, Done);
      }
    case BeginClose(_) =>
      RemoveKeepsInv(s, a, map[], Drain(Snapshot(s), {}, End));
  }

  lemma TickKeepsInv(s: State, d: nat)
    requires Inv(s)
    ensures Inv(s.(now := s.now + d))
  {
    var t := s.(now := s.now + d);
    assert forall i :: 0 <= i < |t.heap| ==> EntryInv(s, i) ==> EntryInv(t, i);
    assert forall f :: 0 <= f < |t.flights| ==> FlightInv(s, f) ==> FlightInv(t, f);
  }

  lemma BeginKeepsInv(c: Config, s: State, ev: Event)
    requires Inv(s) && Enabled(s, ev)
    requires ev.Tick? || ev.BeginGet? || ev.BeginRemove? || ev.BeginSweep? || ev.DrainDone?
    ensures Inv(Apply(c, s, ev))
  {
    if ev.Tick? {
      TickKeepsInv(s, ev.d);
    } else {
      MoveKeepsInv(s, ev.a, Apply(c, s, ev).actors[ev.a]);
    }
  }

  /** Every event keeps the invariant. */
  lemma StepKeepsInv(c: Config, s: State, ev: Event)
    requires Inv(s) && Enabled(s, ev)
    ensures Inv(Apply(c, s, ev))
  {
    if ev.Tick? || ev.BeginGet? || ev.BeginRemove? || ev.BeginSweep? || ev.DrainDone? {
      BeginKeepsInv(c, s, ev);
    } else if ev.UnmapStep? || ev.RemoveStep? || ev.BeginClose? {
      ForcedKeepsInv(c, s, ev);
    } else if ev.LookupStep? || ev.JudgeStep? || ev.PingStep? {
      ProbeKeepsInv(c, s, ev);
    } else if ev.AcquireStep? || ev.TakeStep? {
      AcquireKeepsInv(c, s, ev);
    } else if ev.RelHitStep? {
      GiveBackKeepsInv(c, s, ev);
    } else if ev.WaitStep? || ev.WaitCancel? {
      WaitKeepsInv(c, s, ev);
    } else if ev.ChannelStep? && ev.reply.Prohibited? {
      RefuseKeepsInv(c, s, ev.a);
    } else if ev.ChannelStep? || ev.TunnelCloseStep? || ev.RelLookupStep? {
      BorrowKeepsInv(c, s, ev);
    } else if ev.FlightCheck? || ev.FlightJudge? || ev.DialFail? {
      FlightKeepsInv(c, s, ev);
    } else {
      match ev
      case JoinStep(a) => JoinKeepsInv(s, a);
      case SweepOne(a, i) => SweepKeepsInv(c, s, a, i);
      case SweepUnmap(a) => SweepUnmapKeepsInv(c, s, a);
      case DrainRetire(a, i) => DrainRetireKeepsInv(c, s, a, i);
      case DrainClose(a, i) => DrainCloseKeepsInv(c, s, a, i);
      case DialOk(f) => DialKeepsInv(c, s, f);
      case FlightPublish(f) => PublishKeepsInv(c, s, f);
      case FlightEnd(f) => FlightEndKeepsInv(c, s, f);
    }
  }

  /** Safety of every run, whatever its interleaving. */
  lemma {:induction false} RunKeepsInv(c: Config, s: State, evs: seq<Event>, t: State)
    requires Inv(s) && Run(c, s, evs, t)
    ensures Inv(t)
    decreases |evs|
  {
    if evs != [] {
      StepKeepsInv(c, s, evs[0]);
      RunKeepsInv(c, Apply(c, s, evs[0]), evs[1..], t);
    }
  }

  /** Main result: in every state of every run an entry that was dialed is reachable through
      the map under its own asset, still with its dial, retired, or held by an actor about
      to retire it; a retired one is closed or has an actor about to close it; and no
      connection is closed twice, or closed before its entry is retired. */
  lemma NoLeakNoDoubleClose(c: Config, evs: seq<Event>, t: State, i: nat)
    requires Run(c, Init(), evs, t) && i < |t.heap|
    ensures t.heap[i].closed || InMap(t, i) || InFlight(t, i) || SomeoneRetires(t, i)
    ensures t.heap[i].closed ==> t.heap[i].connCloses == 1 || SomeoneCloses(t, i)
    ensures t.heap[i].connCloses <= 1
    ensures t.heap[i].connCloses == 1 ==> t.heap[i].closed
  {
    RunKeepsInv(c, Init(), evs, t);
    assert EntryInv(t, i);
  }

  /** At rest — no call of Get, Release, Remove, cleanup or Close under way and no dial
      running — every entry ever dialed is in the map, or closed exactly once. */
  lemma NothingLeaksAtRest(c: Config, evs: seq<Event>, t: State, i: nat)
    requires Run(c, Init(), evs, t) && i < |t.heap|
    requires forall a :: a in t.actors ==> t.actors[a].Done? || t.actors[a].Tunnel?
    requires forall f :: 0 <= f < |t.flights| ==> t.flights[f].pc.FDone?
    ensures InMap(t, i) || t.heap[i].connCloses == 1
  {
    RunKeepsInv(c, Init(), evs, t);
    assert EntryInv(t, i);
  }

  /** A dial only ever overwrites a retired entry: in every run, whatever the map holds for
      the asset when a new entry is published has been retired already. */
  lemma DialOverwritesOnlyRetired(c: Config, evs: seq<Event>, t: State, f: nat)
    requires Run(c, Init(), evs, t) && Enabled(t, FlightPublish(f))
    ensures var asset := t.flights[f].asset;
            asset in t.entries ==> t.entries[asset] < |t.heap| && t.heap[t.entries[asset]].closed
  {
    RunKeepsInv(c, Init(), evs, t);
    PublishKeepsInv(c, t, f);
  }
}
