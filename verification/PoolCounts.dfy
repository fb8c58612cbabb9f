/** Reference counts of the SSH pool: they are the number of borrowers exactly as long as every release
    finds the entry its caller borrowed. */
module PoolCounts {
  import opened PoolEntries
  import opened PoolMachine
  import opened PoolSafety

  /** The actors holding one reference on entry i. */
  function Borrowers(s: State, i: nat): set<nat> {
    set a | a in s.actors && s.actors[a].Borrows(i)
  }

  /** Every entry's count is the number of its borrowers. */
  ghost predicate CountsMatch(s: State) {
    forall i :: 0 <= i < |s.heap| ==> s.heap[i].refCount == |Borrowers(s, i)|
  }

  /** Every Release under way has found the entry its caller borrowed. */
  predicate HitsOwn(s: State) {
    forall a :: a in s.actors && s.actors[a].RelHit? ==> s.actors[a].hit == s.actors[a].e
  }

  ghost predicate Counted(s: State) {
    CountsMatch(s) && HitsOwn(s)
  }

  /** The branch a release or a refusal takes when the map still holds the entry it borrowed. */
  predicate FindsOwn(s: State, a: nat) {
    var p := At(s, a);
    (p.RelLookup? || p.Borrowed?) && p.asset in s.entries && s.entries[p.asset] == p.e
  }

  predicate Refuses(ev: Event) {
    ev.ChannelStep? && ev.reply.Prohibited?
  }

  /** Releases and refusals are the events whose outcome depends on what the map holds. */
  predicate OwnStep(s: State, ev: Event) {
    ev.RelLookupStep? || Refuses(ev) ==> FindsOwn(s, ev.a)
  }

  lemma BorrowersMove(s: State, t: State, a: nat, pc: Pc)
    requires t.actors == s.actors[a := pc]
    ensures forall i: nat :: pc.Borrows(i) ==> Borrowers(t, i) == Borrowers(s, i) + {a}
    ensures forall i: nat :: !pc.Borrows(i) ==> Borrowers(t, i) == Borrowers(s, i) - {a}
  {
  }

  /** Events that take or give back a reference. */
  predicate Counting(ev: Event) {
    ev.AcquireStep? || ev.TakeStep? || ev.RelHitStep? || Refuses(ev) || ev.DialOk?
  }

  /** Any other event moves exactly one actor. */
  lemma OneActorMoves(c: Config, s: State, ev: Event)
    requires Enabled(s, ev)
    ensures Environment(ev) ==> Apply(c, s, ev).actors == s.actors
    ensures !Environment(ev) ==>
              ev.a in Apply(c, s, ev).actors && Apply(c, s, ev).actors == s.actors[ev.a := Apply(c, s, ev).actors[ev.a]]
  {
  }

  lemma SameBorrowers(s: State, t: State, a: nat, pc: Pc)
    requires t.actors == s.actors[a := pc]
    requires forall i: nat :: pc.Borrows(i) <==> At(s, a).Borrows(i)
    ensures forall i: nat :: Borrowers(t, i) == Borrowers(s, i)
  {
  }

  lemma OtherStepKeepsCounts(c: Config, s: State, ev: Event)
    requires CountsMatch(s) && Enabled(s, ev) && !Counting(ev)
    requires !ev.SweepOne? && !ev.DrainRetire? && !ev.DrainClose? && !ev.RelLookupStep?
    ensures CountsMatch(Apply(c, s, ev))
  {
    var t := Apply(c, s, ev);
    OneActorMoves(c, s, ev);
    assert t.heap == s.heap;
    if Environment(ev) {
      assert forall i: nat :: Borrowers(t, i) == Borrowers(s, i);
    } else {
      SameBorrowers(s, t, ev.a, t.actors[ev.a]);
    }
  }

  lemma SweepKeepsCounts(c: Config, s: State, ev: Event)
    requires CountsMatch(s) && Enabled(s, ev)
    requires ev.SweepOne? || ev.DrainRetire? || ev.DrainClose?
    ensures CountsMatch(Apply(c, s, ev))
  {
    var t := Apply(c, s, ev);
    SameBorrowers(s, t, ev.a, t.actors[ev.a]);
    assert t.heap == s.heap[ev.i := t.heap[ev.i]];
    assert s.heap[ev.i].refCount == |Borrowers(s, ev.i)|;
  }

  /** Entry i goes to e while actor a, alone, takes or gives back one reference on it. */
  lemma OneCountChanges(s: State, t: State, a: nat, pc: Pc, i: nat, e: Entry)
    requires CountsMatch(s) && i < |s.heap|
    requires t.heap == s.heap[i := e] && t.actors == s.actors[a := pc]
    requires forall j: nat :: j != i ==> !At(s, a).Borrows(j) && !pc.Borrows(j)
    requires pc.Borrows(i) != At(s, a).Borrows(i)
    requires e.refCount == s.heap[i].refCount + (if pc.Borrows(i) then 1 else -1)
    ensures CountsMatch(t)
  {
    BorrowersMove(s, t, a, pc);
    forall j | 0 <= j < |t.heap|
      ensures t.heap[j].refCount == |Borrowers(t, j)|
    {
      assert s.heap[j].refCount == |Borrowers(s, j)|;
      assert a in Borrowers(s, j) <==> At(s, a).Borrows(j);
    }
  }

  lemma AcquireKeepsCounts(c: Config, s: State, ev: Event)
    requires Inv(s) && CountsMatch(s) && Enabled(s, ev) && (ev.AcquireStep? || ev.TakeStep?)
    ensures CountsMatch(Apply(c, s, ev))
  {
    var t := Apply(c, s, ev);
    var e := At(s, ev.a).e;
    if s.heap[e].closed {
      SameBorrowers(s, t, ev.a, t.actors[ev.a]);
    } else {
      OneCountChanges(s, t, ev.a, t.actors[ev.a], e, t.heap[e]);
    }
  }

  lemma GiveBackKeepsCounts(c: Config, s: State, a: nat)
    requires Inv(s) && Counted(s) && Enabled(s, RelHitStep(a))
    ensures CountsMatch(Apply(c, s, RelHitStep(a)))
  {
    var t, e := Apply(c, s, RelHitStep(a)), At(s, a).e;
    assert a in Borrowers(s, e);
    OneCountChanges(s, t, a, t.actors[a], e, t.heap[e]);
  }

  lemma DialKeepsCounts(c: Config, s: State, f: nat)
    requires Inv(s) && CountsMatch(s) && Enabled(s, DialOk(f))
    ensures CountsMatch(Apply(c, s, DialOk(f)))
  {
    var t := Apply(c, s, DialOk(f));
    forall i | 0 <= i < |t.heap|
      ensures t.heap[i].refCount == |Borrowers(t, i)|
    {
      assert Borrowers(t, i) == Borrowers(s, i);
      if i == |s.heap| {
        forall a | a in s.actors
          ensures !s.actors[a].Borrows(i)
        {
          assert PcInv(s, s.actors[a]);
        }
        assert Borrowers(s, i) == {};
      }
    }
  }

  lemma OthersHitNothing(c: Config, s: State, ev: Event)
    requires HitsOwn(s) && Enabled(s, ev) && !ev.RelLookupStep?
    ensures HitsOwn(Apply(c, s, ev))
  {
    OneActorMoves(c, s, ev);
  }

  /** A Release that finds its own entry goes on holding the reference; any other has lost it, or is about
      to take one from somebody else's entry. */
  lemma RelLookupCounts(c: Config, s: State, a: nat)
    requires Inv(s) && Counted(s) && Enabled(s, RelLookupStep(a))
    ensures Counted(Apply(c, s, RelLookupStep(a))) <==> FindsOwn(s, a)
  {
    var t, e := Apply(c, s, RelLookupStep(a)), At(s, a).e;
    assert PcInv(s, At(s, a));
    BorrowersMove(s, t, a, t.actors[a]);
    assert a in Borrowers(s, e);
    if t.actors[a].RelHit? {
      SameBorrowers(s, t, a, t.actors[a]);
    } else {
      assert s.heap[e].refCount == |Borrowers(s, e)| && |Borrowers(t, e)| < |Borrowers(s, e)|;
    }
  }

  /** The same for ReleaseRefused, which finds its entry or gives nothing back. */
  lemma RefusalCounts(c: Config, s: State, a: nat)
    requires Inv(s) && Counted(s) && Enabled(s, ChannelStep(a, Prohibited))
    ensures Counted(Apply(c, s, ChannelStep(a, Prohibited))) <==> FindsOwn(s, a)
  {
    var t, e := Apply(c, s, ChannelStep(a, Prohibited)), At(s, a).e;
    assert PcInv(s, At(s, a));
    BorrowersMove(s, t, a, t.actors[a]);
    assert a in Borrowers(s, e);
    OthersHitNothing(c, s, ChannelStep(a, Prohibited));
    if FindsOwn(s, a) {
      OneCountChanges(s, t, a, t.actors[a], e, t.heap[e]);
    } else {
      assert s.heap[e].refCount == |Borrowers(s, e)| && |Borrowers(t, e)| < |Borrowers(s, e)|;
    }
  }

  lemma OtherStepCounts(c: Config, s: State, ev: Event)
    requires Inv(s) && Counted(s) && Enabled(s, ev) && !ev.RelLookupStep? && !Refuses(ev)
    ensures Counted(Apply(c, s, ev))
  {
    OthersHitNothing(c, s, ev);
    if ev.DialOk? {
      DialKeepsCounts(c, s, ev.f);
    } else if ev.AcquireStep? || ev.TakeStep? {
      AcquireKeepsCounts(c, s, ev);
    } else if ev.RelHitStep? {
      GiveBackKeepsCounts(c, s, ev.a);
    } else if ev.SweepOne? || ev.DrainRetire? || ev.DrainClose? {
      SweepKeepsCounts(c, s, ev);
    } else {
      OtherStepKeepsCounts(c, s, ev);
    }
  }

  /** Main result, for one event of any kind: right counts stay right exactly when a release or a refusal
      finds the entry it borrowed. */
  lemma StepCountsExactlyWhenOwn(c: Config, s: State, ev: Event)
    requires Inv(s) && Counted(s) && Enabled(s, ev)
    ensures Counted(Apply(c, s, ev)) <==> OwnStep(s, ev)
  {
    if ev.RelLookupStep? {
      RelLookupCounts(c, s, ev.a);
    } else if Refuses(ev) {
      RefusalCounts(c, s, ev.a);
    } else {
      OtherStepCounts(c, s, ev);
    }
  }

  /** Along the whole run every release and refusal finds its own entry. */
  ghost predicate AllOwn(c: Config, s: State, evs: seq<Event>)
    decreases |evs|
  {
    evs == [] || (Enabled(s, evs[0]) && OwnStep(s, evs[0]) && AllOwn(c, Apply(c, s, evs[0]), evs[1..]))
  }

  /** In every state of the run the counts are right. */
  ghost predicate AlwaysCounted(c: Config, s: State, evs: seq<Event>)
    decreases |evs|
  {
    Counted(s) && (evs == [] || (Enabled(s, evs[0]) && AlwaysCounted(c, Apply(c, s, evs[0]), evs[1..])))
  }

  lemma {:induction false} RunCountsExactlyWhenOwn(c: Config, s: State, evs: seq<Event>, t: State)
    requires Inv(s) && Counted(s) && Run(c, s, evs, t)
    ensures AlwaysCounted(c, s, evs) <==> AllOwn(c, s, evs)
    ensures AllOwn(c, s, evs) ==> Counted(t)
    decreases |evs|
  {
    if evs != [] {
      var u := Apply(c, s, evs[0]);
      StepKeepsInv(c, s, evs[0]);
      StepCountsExactlyWhenOwn(c, s, evs[0]);
      if OwnStep(s, evs[0]) {
        RunCountsExactlyWhenOwn(c, u, evs[1..], t);
      }
    }
  }

  lemma InitIsCounted()
    ensures Inv(Init()) && Counted(Init())
  {
  }

  /** Main result: in a run of any events, Remove, Close and failed probes included, every entry's count is
      the number of its borrowers throughout exactly when every release and refusal finds its own entry. */
  lemma RefCountIsBorrowers(c: Config, evs: seq<Event>, t: State)
    requires Run(c, Init(), evs, t)
    ensures AlwaysCounted(c, Init(), evs) <==> AllOwn(c, Init(), evs)
  {
    InitIsCounted();
    RunCountsExactlyWhenOwn(c, Init(), evs, t);
  }

  /** Once every DialAddr has returned and every tunnelConn.Close has finished, the count of
      an entry is the number of connections DialAddr returned on it and that are still open:
      a DialAddr that failed, after one attempt or two, has left nothing behind. */
  lemma AtRestRefCountIsOpenTunnels(c: Config, evs: seq<Event>, t: State, i: nat)
    requires Run(c, Init(), evs, t) && AllOwn(c, Init(), evs) && i < |t.heap|
    requires forall a :: a in t.actors ==> t.actors[a].Done? || t.actors[a].Tunnel?
    ensures t.heap[i].refCount == |set a | a in t.actors && t.actors[a].Tunnel? && t.actors[a].e == i|
  {
    InitIsCounted();
    RunCountsExactlyWhenOwn(c, Init(), evs, t);
    assert Borrowers(t, i) == set a | a in t.actors && t.actors[a].Tunnel? && t.actors[a].e == i;
  }

  /** Release lowers exactly the entry its caller borrowed. */
  lemma ReleaseIsOwn(c: Config, evs: seq<Event>, t: State, a: nat)
    requires Run(c, Init(), evs, t) && AllOwn(c, Init(), evs) && Enabled(t, RelHitStep(a))
    ensures At(t, a).hit == At(t, a).e && t.heap[At(t, a).e].refCount >= 1
  {
    InitIsCounted();
    RunCountsExactlyWhenOwn(c, Init(), evs, t);
    assert a in Borrowers(t, At(t, a).e);
  }
}
