/** The sessions of an extension's database driver (internal/extreg/dbdriver.go and
    dbdriver_session.go): opening, closing and removing race. One event is one critical
    section of the driver's mutex, one access outside it, or one step of an Open; the life
    of the driver ends outside the mutex, so the locked end of Open is two steps. */
module DriverSessions {

  /** An inner session: closeOnce and how often inner.Close() ran. */
  datatype Session = Session(once: bool, closes: nat) {
    function Closed(): Session {
      if once then this else Session(true, closes + 1)
    }
  }

  datatype Pc =
    | Done
    | OpenCheck                  // Open: about to check whether the driver is removed
    | OpenRun                    // the extension is opening the session
    | OpenLock(s: nat)           // opened; about to lock and check again
    | OpenInsert(s: nat, look: nat)  // holding the mutex, found the driver alive at step `look`
    | CloseLock(s: nat)          // Close called on a session
    | CloseInner(s: nat)         // closeInner pending
    | RemoveEnd                  // removeDrivers: about to end the life
    | RemoveSwap                 // remove: about to swap the session set
    | Drain(todo: set<nat>)      // closing the swapped sessions
  {
    /** Sessions this actor has still to close, or to hand over. */
    function Duty(): set<nat> {
      match this
      case OpenLock(s) => {s}
      case OpenInsert(s, _) => {s}
      case CloseInner(s) => {s}
      case Drain(todo) => todo
      case _ => {}
    }
  }

  /** inner holds every inner session by identity; given are those Open has returned, with the step at which
      it looked at the life under the mutex. Steps are history. */
  datatype State = State(
    step: nat,
    ended: bool,
    endedAt: nat,
    swapped: bool,
    locked: bool,
    sessions: set<nat>,
    inner: seq<Session>,
    given: map<nat, nat>,
    actors: map<nat, Pc>)

  datatype Event =
    | BeginOpen(a: nat)
    | BeginClose(a: nat, s: nat)
    | BeginRemove(a: nat)
    | CheckStep(a: nat)
    | OpenFailed(a: nat)
    | OpenOk(a: nat)
    | LockStep(a: nat)
    | InsertStep(a: nat)
    | ForgetStep(a: nat)
    | CloseStep(a: nat)
    | EndStep(a: nat)
    | SwapStep(a: nat)
    | DrainStep(a: nat, s: nat)
    | DrainDone(a: nat)

  function Init(): State {
    State(0, false, 0, false, false, {}, [], map[], map[])
  }

  function At(s: State, a: nat): Pc {
    if a in s.actors then s.actors[a] else Done
  }

  function Move(s: State, a: nat, pc: Pc): State {
    s.(actors := s.actors[a := pc])
  }

  function CloseOne(s: State, i: nat): State
    requires i < |s.inner|
  {
    s.(inner := s.inner[i := s.inner[i].Closed()])
  }

  predicate Enabled(s: State, ev: Event) {
    match ev
    case BeginOpen(a) => At(s, a).Done?
    case BeginClose(a, i) => At(s, a).Done? && i in s.given
    case BeginRemove(a) => At(s, a).Done?
    case CheckStep(a) => At(s, a).OpenCheck?
    case OpenFailed(a) => At(s, a).OpenRun?
    case OpenOk(a) => At(s, a).OpenRun?
    case LockStep(a) => At(s, a).OpenLock? && !s.locked
    case InsertStep(a) => At(s, a).OpenInsert?
    case ForgetStep(a) => At(s, a).CloseLock? && !s.locked
    case CloseStep(a) => At(s, a).CloseInner? && At(s, a).s < |s.inner|
    case EndStep(a) => At(s, a).RemoveEnd?
    case SwapStep(a) => At(s, a).RemoveSwap? && !s.locked
    case DrainStep(a, i) => At(s, a).Drain? && i in At(s, a).todo && i < |s.inner|
    case DrainDone(a) => At(s, a).Drain? && At(s, a).todo == {}
  }

  function Apply(s: State, ev: Event): State
    requires Enabled(s, ev)
  {
    Act(s, ev).(step := s.step + 1)
  }

  /** The end of life is the first one. */
  function End(s: State): State {
    if s.ended then s else s.(ended := true, endedAt := s.step)
  }

  function Act(s: State, ev: Event): State
    requires Enabled(s, ev)
  {
    match ev
    case BeginOpen(a) => Move(s, a, OpenCheck)
    case BeginClose(a, i) => Move(s, a, CloseLock(i))
    case BeginRemove(a) => Move(s, a, RemoveEnd)
    case CheckStep(a) => Move(s, a, if s.ended then Done else OpenRun)
    case OpenFailed(a) => Move(s, a, Done)
    case OpenOk(a) => Move(s.(inner := s.inner + [Session(false, 0)]), a, OpenLock(|s.inner|))
    case LockStep(a) =>
      var i := At(s, a).s;
      if s.ended then Move(s, a, CloseInner(i)) else Move(s.(locked := true), a, OpenInsert(i, s.step))
    case InsertStep(a) =>
      var i := At(s, a).s;
      Move(s.(locked := false, sessions := s.sessions + {i}, given := s.given[i := At(s, a).look]), a, Done)
    case ForgetStep(a) =>
      var i := At(s, a).s;
      Move(s.(sessions := s.sessions - {i}), a, CloseInner(i))
    case CloseStep(a) => Move(CloseOne(s, At(s, a).s), a, Done)
    case EndStep(a) => Move(End(s), a, RemoveSwap)
    case SwapStep(a) => Move(End(s).(swapped := true, sessions := {}), a, Drain(s.sessions))
    case DrainStep(a, i) => Move(CloseOne(s, i), a, Drain(At(s, a).todo - {i}))
    case DrainDone(a) => Move(s, a, Done)
  }

  ghost predicate Run(s: State, evs: seq<Event>, t: State)
    decreases |evs|
  {
    if evs == [] then s == t else Enabled(s, evs[0]) && Run(Apply(s, evs[0]), evs[1..], t)
  }

  ghost predicate OnDuty(s: State, i: nat) {
    exists a :: a in s.actors && i in s.actors[a].Duty()
  }

  /** An inner session is closed at most once; while it is not, the driver's set holds it or
      some actor still has to close it or hand it over. */
  ghost predicate SessionInv(s: State, i: nat)
    requires i < |s.inner|
  {
    && s.inner[i].closes == (if s.inner[i].once then 1 else 0)
    && (!s.inner[i].once ==> i in s.sessions || OnDuty(s, i))
  }

  /** The look at that step found the driver alive. */
  ghost predicate WhileAlive(s: State, look: nat) {
    look < s.step && (s.ended ==> look < s.endedAt)
  }

  ghost predicate PcInv(s: State, pc: Pc) {
    && (forall i :: i in pc.Duty() ==> i < |s.inner|)
    && (pc.CloseLock? ==> pc.s < |s.inner|)
    && (pc.OpenInsert? ==> s.locked && !s.swapped && WhileAlive(s, pc.look))
  }

  ghost predicate Inv(s: State) {
    && (s.swapped ==> s.ended && s.sessions == {})
    && (forall i :: i in s.sessions ==> i < |s.inner|)
    && (forall i :: i in s.given ==> i < |s.inner| && WhileAlive(s, s.given[i]))
    && (forall i :: 0 <= i < |s.inner| ==> SessionInv(s, i))
    && (forall a :: a in s.actors ==> PcInv(s, s.actors[a]))
    && (forall a, b :: a in s.actors && b in s.actors && s.actors[a].OpenInsert? && s.actors[b].OpenInsert? ==> a == b)
  }

  /** One actor moves; whatever it lays down is closed or in the set. */
  lemma MoveKeepsInv(s: State, t: State, a: nat)
    requires Inv(s) && a in t.actors && t.actors == s.actors[a := t.actors[a]]
    requires t.swapped ==> t.ended && t.sessions == {}
    requires forall i :: i in t.sessions ==> i < |t.inner|
    requires forall i :: i in t.given ==> i < |t.inner| && WhileAlive(t, t.given[i])
    requires s.step < t.step && if s.ended then t.ended && t.endedAt == s.endedAt else t.ended ==> t.endedAt == s.step
    requires |s.inner| <= |t.inner|
    requires forall i :: 0 <= i < |t.inner| ==> t.inner[i].closes == (if t.inner[i].once then 1 else 0)
    requires forall i :: 0 <= i < |s.inner| && s.inner[i].once ==> t.inner[i].once
    requires forall i :: 0 <= i < |s.inner| && !t.inner[i].once && (i in s.sessions || i in At(s, a).Duty()) ==>
      i in t.sessions || i in t.actors[a].Duty()
    requires forall i :: |s.inner| <= i < |t.inner| ==> i in t.actors[a].Duty()
    requires PcInv(t, t.actors[a])
    requires forall b :: b in s.actors && b != a && s.actors[b].OpenInsert? ==>
      t.locked && !t.swapped && !t.actors[a].OpenInsert?
    ensures Inv(t)
  {
    forall i | 0 <= i < |t.inner|
      ensures SessionInv(t, i)
    {
      if i < |s.inner| {
        assert SessionInv(s, i);
        if OnDuty(s, i) {
          var b :| b in s.actors && i in s.actors[b].Duty();
          assert b in t.actors;
        }
      }
      assert i in t.actors[a].Duty() ==> OnDuty(t, i);
    }
    forall b | b in t.actors
      ensures PcInv(t, t.actors[b])
    {
      if b != a {
        assert PcInv(s, s.actors[b]);
      }
    }
  }

  lemma OpenKeepsInv(s: State, ev: Event)
    requires Inv(s) && Enabled(s, ev)
    requires ev.OpenOk? || ev.LockStep? || ev.InsertStep?
    ensures Inv(Apply(s, ev))
  {
    var p := At(s, ev.a);
    var t := Apply(s, ev);
    assert PcInv(s, p);
    assert p.OpenLock? || p.OpenInsert? ==> p.s in p.Duty();
    forall i | 0 <= i < |t.inner|
      ensures t.inner[i].closes == (if t.inner[i].once then 1 else 0)
    {
      assert i < |s.inner| ==> SessionInv(s, i);
    }
    MoveKeepsInv(s, t, ev.a);
  }

  lemma CloseKeepsInv(s: State, ev: Event)
    requires Inv(s) && Enabled(s, ev)
    requires ev.ForgetStep? || ev.CloseStep? || ev.DrainStep?
    ensures Inv(Apply(s, ev))
  {
    var p := At(s, ev.a);
    var t := Apply(s, ev);
    assert PcInv(s, p);
    assert p.CloseInner? ==> p.s in p.Duty();
    assert p.Drain? ==> p.Duty() == p.todo;
    forall i | 0 <= i < |t.inner|
      ensures t.inner[i].closes == (if t.inner[i].once then 1 else 0)
    {
      assert SessionInv(s, i);
    }
    MoveKeepsInv(s, t, ev.a);
  }

  lemma OtherKeepsInv(s: State, ev: Event)
    requires Inv(s) && Enabled(s, ev)
    requires !(ev.OpenOk? || ev.LockStep? || ev.InsertStep? || ev.ForgetStep? || ev.CloseStep? || ev.DrainStep?)
    ensures Inv(Apply(s, ev))
  {
    var t := Apply(s, ev);
    assert forall b :: b in s.actors ==> PcInv(s, s.actors[b]);
    forall i | 0 <= i < |t.inner|
      ensures t.inner[i].closes == (if t.inner[i].once then 1 else 0)
    {
      assert SessionInv(s, i);
    }
    MoveKeepsInv(s, t, ev.a);
  }

  lemma StepKeepsInv(s: State, ev: Event)
    requires Inv(s) && Enabled(s, ev)
    ensures Inv(Apply(s, ev))
  {
    if ev.OpenOk? || ev.LockStep? || ev.InsertStep? {
      OpenKeepsInv(s, ev);
    } else if ev.ForgetStep? || ev.CloseStep? || ev.DrainStep? {
      CloseKeepsInv(s, ev);
    } else {
      OtherKeepsInv(s, ev);
    }
  }

  lemma {:induction false} RunKeepsInv(s: State, evs: seq<Event>, t: State)
    requires Inv(s) && Run(s, evs, t)
    ensures Inv(t) && (s.swapped ==> t.swapped && t.given == s.given)
    decreases |evs|
  {
    if evs != [] {
      StepKeepsInv(s, evs[0]);
      RunKeepsInv(Apply(s, evs[0]), evs[1..], t);
    }
  }

  /** Main result: once removal has swapped the session set it stays empty, whatever Opens are
      still under way. */
  lemma RemovedStaysEmpty(before: seq<Event>, s: State, after: seq<Event>, t: State)
    requires Run(Init(), before, s) && s.swapped && Run(s, after, t)
    ensures t.swapped && t.ended && t.sessions == {}
  {
    RunKeepsInv(Init(), before, s);
    RunKeepsInv(s, after, t);
  }

  /** Main result: Open hands a session out only if its look under the mutex came before the end of life, and
      none once the set has been swapped. */
  lemma GivenOnlyWhileAlive(before: seq<Event>, s: State, after: seq<Event>, t: State, i: nat)
    requires Run(Init(), before, s) && Run(s, after, t) && i in t.given
    ensures i < |t.inner| && (t.ended ==> t.given[i] < t.endedAt)
    ensures s.swapped ==> i in s.given
  {
    RunKeepsInv(Init(), before, s);
    RunKeepsInv(s, after, t);
  }

  /** Main result: an inner session is never closed twice, and one not closed yet is in the
      driver's set or the duty of an actor: its Open, its closer, or the remover. */
  lemma ClosedAtMostOnce(evs: seq<Event>, t: State, i: nat)
    requires Run(Init(), evs, t) && i < |t.inner|
    ensures t.inner[i].closes <= 1
    ensures t.inner[i].closes == 1 || i in t.sessions || OnDuty(t, i)
  {
    RunKeepsInv(Init(), evs, t);
    assert SessionInv(t, i);
  }

  /** Main result: removal is complete. When it has swapped the set and nothing is under way
      any more, every inner session ever opened has been closed exactly once. */
  lemma RemovalClosesEverySession(evs: seq<Event>, t: State, i: nat)
    requires Run(Init(), evs, t) && t.swapped && i < |t.inner|
    requires forall a :: a in t.actors ==> t.actors[a].Done?
    ensures t.inner[i].closes == 1
  {
    RunKeepsInv(Init(), evs, t);
    assert SessionInv(t, i);
  }
}
