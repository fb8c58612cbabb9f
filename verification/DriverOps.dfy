/** Operations, row streams and row writers of an extension driver against the end of its life
    (internal/extreg/dbdriver.go:112-149, dbdriver_session.go:23-35, 110-243): which answers survive it, who
    closes a cursor and who releases its context. One event is one look at the driver's life, one call into
    the extension, or one close. */
module DriverOps {

  /** `do` runs a session's operations, RowStatements those of a row writer; both look at the life before and
      after. Classify looks again only when the extension failed. */
  datatype Kind = Do | RowStatements | Classify

  datatype Outcome = Success | Failed | Unavailable

  /** A row stream: its owner, closed.Do and the releases of its context, the extension's cursor and how often
      that was closed, and when the stream was handed to the caller. */
  datatype Stream = Stream(
    owner: nat, once: bool, releases: nat, cursor: bool, closes: nat, handed: bool, handedAt: nat)

  datatype Pc =
    | Done
    | OpCheck(kind: Kind, begun: nat)            // about to look at the life
    | OpRun(kind: Kind, begun: nat)              // in the extension
    | OpFinal(kind: Kind, begun: nat, ok: bool)  // it returned; about to look again
    | StreamCheck(c: nat)                        // StreamTableRows: context c derived
    | StreamRun(c: nat)
    | StreamFinal(c: nat, ok: bool)              // ok: the extension opened a cursor
    | With(c: nat, shut: bool)                   // the stream is with the caller, who may have closed it
    | InNext(c: nat, shut: bool, since: nat)     // Next and Err found the driver alive at step `since`
    | InErr(c: nat, shut: bool, since: nat)

  /** The outcome of an operation, when it began and when it last looked at the life. */
  datatype Result = Result(kind: Kind, outcome: Outcome, begun: nat, checkedAt: nat)

  /** The answer of a Next or Err, and when it looked at the life. */
  datatype Reading =
    | NextRead(c: nat, more: bool, asked: bool, checkedAt: nat)
    | ErrRead(c: nat, outcome: Outcome, checkedAt: nat)

  datatype State = State(
    step: nat,
    ended: bool,
    endedAt: nat,
    streams: seq<Stream>,
    actors: map<nat, Pc>,
    results: seq<Result>,
    readings: seq<Reading>)

  datatype Event =
    | EndOfLife
    | BeginOp(a: nat, kind: Kind)
    | OpCheckStep(a: nat)
    | OpRunStep(a: nat, ok: bool)
    | OpFinalStep(a: nat)
    | BeginStream(a: nat)
    | StreamCheckStep(a: nat)
    | StreamRunStep(a: nat, ok: bool)
    | StreamFinalStep(a: nat)
    | NextStep(a: nat)
    | NextReturn(a: nat, more: bool)
    | ErrStep(a: nat)
    | ErrReturn(a: nat, ok: bool)
    | CloseStep(a: nat)
    | DropStep(a: nat)

  function Init(): State {
    State(0, false, 0, [], map[], [], [])
  }

  function At(s: State, a: nat): Pc {
    if a in s.actors then s.actors[a] else Done
  }

  function Move(s: State, a: nat, pc: Pc): State {
    s.(actors := s.actors[a := pc])
  }

  function SetStream(s: State, c: nat, st: Stream): State
    requires c < |s.streams|
  {
    s.(streams := s.streams[c := st])
  }

  function Answer(s: State, r: Result): State {
    s.(results := s.results + [r])
  }

  function Log(s: State, r: Reading): State {
    s.(readings := s.readings + [r])
  }

  /** The stream an actor is about. */
  predicate About(pc: Pc) {
    pc.StreamCheck? || pc.StreamRun? || pc.StreamFinal? || pc.With? || pc.InNext? || pc.InErr?
  }

  predicate Enabled(s: State, ev: Event) {
    match ev
    case EndOfLife => true
    case BeginOp(a, _) => At(s, a).Done?
    case OpCheckStep(a) => At(s, a).OpCheck?
    case OpRunStep(a, _) => At(s, a).OpRun?
    case OpFinalStep(a) => At(s, a).OpFinal?
    case BeginStream(a) => At(s, a).Done?
    case StreamCheckStep(a) => At(s, a).StreamCheck? && At(s, a).c < |s.streams|
    case StreamRunStep(a, _) => At(s, a).StreamRun? && At(s, a).c < |s.streams|
    case StreamFinalStep(a) => At(s, a).StreamFinal? && At(s, a).c < |s.streams|
    case NextStep(a) => At(s, a).With?
    case NextReturn(a, _) => At(s, a).InNext?
    case ErrStep(a) => At(s, a).With?
    case ErrReturn(a, _) => At(s, a).InErr?
    case CloseStep(a) => At(s, a).With? && At(s, a).c < |s.streams|
    case DropStep(a) => At(s, a).With? && At(s, a).shut
  }

  function Apply(s: State, ev: Event): State
    requires Enabled(s, ev)
  {
    Act(s, ev).(step := s.step + 1)
  }

  predicate Operating(ev: Event) {
    ev.EndOfLife? || ev.BeginOp? || ev.OpCheckStep? || ev.OpRunStep? || ev.OpFinalStep?
  }

  function Act(s: State, ev: Event): State
    requires Enabled(s, ev)
  {
    if Operating(ev) then Operate(s, ev) else if Uses(ev) then Use(s, ev) else Open(s, ev)
  }

  /** The operations: refused before they run when the driver is removed, overridden after. */
  function Operate(s: State, ev: Event): State
    requires Enabled(s, ev) && Operating(ev)
  {
    match ev
    case EndOfLife => if s.ended then s else s.(ended := true, endedAt := s.step)
    case BeginOp(a, kind) => Move(s, a, OpCheck(kind, s.step))
    case OpCheckStep(a) =>
      var p := At(s, a);
      if s.ended then Move(Answer(s, Result(p.kind, Unavailable, p.begun, s.step)), a, Done)
      else Move(s, a, OpRun(p.kind, p.begun))
    case OpRunStep(a, ok) => Move(s, a, OpFinal(At(s, a).kind, At(s, a).begun, ok))
    case OpFinalStep(a) =>
      var p := At(s, a);
      var outcome :=
        if p.kind.Classify? && p.ok then Success
        else if s.ended then Unavailable
        else if p.ok then Success
        else Failed;
      Move(Answer(s, Result(p.kind, outcome, p.begun, s.step)), a, Done)
  }

  /** StreamTableRows: a cursor opened too late is closed, and its context released, on the way out. */
  function Open(s: State, ev: Event): State
    requires Enabled(s, ev) && !Operating(ev) && !Uses(ev)
  {
    var a := ev.a;
    match ev
    case BeginStream(_) =>
      Move(s.(streams := s.streams + [Stream(a, false, 0, false, 0, false, 0)]), a, StreamCheck(|s.streams|))
    case StreamCheckStep(_) =>
      var c := At(s, a).c;
      if s.ended then Move(SetStream(s, c, s.streams[c].(releases := s.streams[c].releases + 1)), a, Done)
      else Move(s, a, StreamRun(c))
    case StreamRunStep(_, ok) =>
      var c := At(s, a).c;
      Move(SetStream(s, c, s.streams[c].(cursor := ok)), a, StreamFinal(c, ok))
    case StreamFinalStep(_) =>
      var c, ok := At(s, a).c, At(s, a).ok;
      var st := s.streams[c];
      if s.ended then
        Move(SetStream(s, c, st.(releases := st.releases + 1, closes := st.closes + if ok then 1 else 0)), a, Done)
      else if !ok then Move(SetStream(s, c, st.(releases := st.releases + 1)), a, Done)
      else Move(SetStream(s, c, st.(handed := true, handedAt := s.step)), a, With(c, false))
  }

  predicate Uses(ev: Event) {
    ev.NextStep? || ev.NextReturn? || ev.ErrStep? || ev.ErrReturn? || ev.CloseStep? || ev.DropStep?
  }

  /** What the caller does with the stream: reading looks at the life first, closing never does. */
  function Use(s: State, ev: Event): State
    requires Enabled(s, ev) && Uses(ev)
  {
    var a := ev.a;
    var p := At(s, a);
    match ev
    case NextStep(_) =>
      if s.ended then Log(s, NextRead(p.c, false, false, s.step)) else Move(s, a, InNext(p.c, p.shut, s.step))
    case NextReturn(_, more) => Move(Log(s, NextRead(p.c, more, true, p.since)), a, With(p.c, p.shut))
    case ErrStep(_) =>
      if s.ended then Log(s, ErrRead(p.c, Unavailable, s.step)) else Move(s, a, InErr(p.c, p.shut, s.step))
    case ErrReturn(_, ok) => Move(Log(s, ErrRead(p.c, if ok then Success else Failed, p.since)), a, With(p.c, p.shut))
    case CloseStep(_) =>
      var st := s.streams[p.c];
      var closed := st.(closes := st.closes + 1, once := true,
                        releases := if st.once then st.releases else st.releases + 1);
      Move(SetStream(s, p.c, closed), a, With(p.c, true))
    case DropStep(_) => Move(s, a, Done)
  }

  ghost predicate Run(s: State, evs: seq<Event>, t: State)
    decreases |evs|
  {
    if evs == [] then s == t else Enabled(s, evs[0]) && Run(Apply(s, evs[0]), evs[1..], t)
  }

  // ---- the invariant ----

  /** The driver was alive when the clock showed `at`. */
  predicate AliveAt(s: State, at: nat) {
    at < s.step && (s.ended ==> at < s.endedAt)
  }

  predicate EndedAt(s: State, at: nat) {
    s.ended && s.endedAt < at < s.step
  }

  /** A stream as its owner's place in the code implies it. */
  predicate Fits(st: Stream, a: nat, pc: Pc) {
    && st.owner == a
    && match pc
       case StreamCheck(_) => st == Stream(a, false, 0, false, 0, false, 0)
       case StreamRun(_) => st == Stream(a, false, 0, false, 0, false, 0)
       case StreamFinal(_, ok) => st == Stream(a, false, 0, ok, 0, false, 0)
       case With(_, shut) => FitsReader(st, shut)
       case InNext(_, shut, _) => FitsReader(st, shut)
       case InErr(_, shut, _) => FitsReader(st, shut)
       case _ => true
  }

  predicate FitsReader(st: Stream, shut: bool) {
    && st.cursor && st.handed && st.once == shut
    && if shut then st.releases == 1 && st.closes > 0 else st.releases == 0 && st.closes == 0
  }

  predicate PcInv(s: State, a: nat, pc: Pc) {
    && (About(pc) ==> pc.c < |s.streams| && Fits(s.streams[pc.c], a, pc))
    && (pc.OpCheck? ==> pc.begun < s.step)
    && (pc.OpRun? || pc.OpFinal? ==> AliveAt(s, pc.begun))
    && (pc.InNext? || pc.InErr? ==> AliveAt(s, pc.since))
  }

  /** The stream's owner still has it open. */
  predicate Owned(s: State, c: nat)
    requires c < |s.streams|
  {
    var pc := At(s, s.streams[c].owner);
    About(pc) && pc.c == c && (pc.With? || pc.InNext? || pc.InErr? ==> !pc.shut)
  }

  predicate StreamInv(s: State, c: nat)
    requires c < |s.streams|
  {
    var st := s.streams[c];
    && st.releases <= 1
    && (st.releases == 0 ==> Owned(s, c))
    && (st.closes > 0 <==> st.cursor && st.releases == 1)
    && (st.handed ==> st.cursor && AliveAt(s, st.handedAt))
    && (!st.handed ==> st.closes <= 1)
  }

  predicate ResultInv(s: State, r: Result) {
    && r.begun < r.checkedAt < s.step
    && (r.outcome.Unavailable? ==> EndedAt(s, r.checkedAt))
    && (!r.outcome.Unavailable? ==> AliveAt(s, r.begun))
    && (!r.outcome.Unavailable? && !(r.kind.Classify? && r.outcome.Success?) ==> AliveAt(s, r.checkedAt))
  }

  predicate ReadInv(s: State, r: Reading) {
    match r
    case NextRead(_, more, asked, at) => if asked then AliveAt(s, at) else !more && EndedAt(s, at)
    case ErrRead(_, outcome, at) => if outcome.Unavailable? then EndedAt(s, at) else AliveAt(s, at)
  }

  ghost predicate Inv(s: State) {
    && (s.ended ==> s.endedAt < s.step)
    && (forall a :: a in s.actors ==> PcInv(s, a, s.actors[a]))
    && (forall c :: 0 <= c < |s.streams| ==> StreamInv(s, c))
    && (forall r :: 0 <= r < |s.results| ==> ResultInv(s, s.results[r]))
    && (forall r :: 0 <= r < |s.readings| ==> ReadInv(s, s.readings[r]))
  }

  // ---- every step keeps it ----

  /** One step of the clock, in which the life may end. */
  predicate Ticks(s: State, t: State) {
    && t.step == s.step + 1
    && ((t.ended == s.ended && t.endedAt == s.endedAt) || (!s.ended && t.ended && t.endedAt == s.step))
  }

  /** Only actor a moves, and no stream changes but the one it was about. */
  predicate OneMoves(s: State, t: State, a: nat) {
    && (forall b :: b in s.actors ==> b in t.actors)
    && (forall b :: b in t.actors && b != a ==> b in s.actors && t.actors[b] == s.actors[b])
    && |s.streams| <= |t.streams|
    && (forall c :: 0 <= c < |s.streams| && !(About(At(s, a)) && At(s, a).c == c) ==> t.streams[c] == s.streams[c])
  }

  lemma LogsStay(s: State, t: State)
    requires Inv(s) && Ticks(s, t)
    ensures forall at: nat :: AliveAt(s, at) ==> AliveAt(t, at)
    ensures forall at: nat :: EndedAt(s, at) ==> EndedAt(t, at)
    ensures forall r :: 0 <= r < |s.results| ==> ResultInv(t, s.results[r])
    ensures forall r :: 0 <= r < |s.readings| ==> ReadInv(t, s.readings[r])
  {
    forall r | 0 <= r < |s.results|
      ensures ResultInv(t, s.results[r])
    {
      assert ResultInv(s, s.results[r]);
    }
    forall r | 0 <= r < |s.readings|
      ensures ReadInv(t, s.readings[r])
    {
      assert ReadInv(s, s.readings[r]);
    }
  }

  lemma OthersStay(s: State, t: State, a: nat)
    requires Inv(s) && Ticks(s, t) && OneMoves(s, t, a)
    ensures forall b :: b in t.actors && b != a ==> PcInv(t, b, t.actors[b])
    ensures forall c :: 0 <= c < |s.streams| && !(About(At(s, a)) && At(s, a).c == c) ==> StreamInv(t, c)
  {
    LogsStay(s, t);
    assert a in s.actors ==> PcInv(s, a, s.actors[a]);
    forall b | b in t.actors && b != a
      ensures PcInv(t, b, t.actors[b])
    {
      assert PcInv(s, b, s.actors[b]);
    }
    forall c | 0 <= c < |s.streams| && !(About(At(s, a)) && At(s, a).c == c)
      ensures StreamInv(t, c)
    {
      assert StreamInv(s, c);
    }
  }

  /** The moved actor, the stream it was or is now about, and what the step logs. */
  lemma MoveKeepsInv(s: State, t: State, a: nat)
    requires Inv(s) && Ticks(s, t) && OneMoves(s, t, a)
    requires a in t.actors ==> PcInv(t, a, t.actors[a])
    requires About(At(s, a)) ==> StreamInv(t, At(s, a).c)
    requires forall c :: |s.streams| <= c < |t.streams| ==> StreamInv(t, c)
    requires t.results == s.results || (exists r :: t.results == s.results + [r] && ResultInv(t, r))
    requires t.readings == s.readings || (exists r :: t.readings == s.readings + [r] && ReadInv(t, r))
    ensures Inv(t)
  {
    LogsStay(s, t);
    OthersStay(s, t, a);
  }

  lemma EndKeepsInv(s: State)
    requires Inv(s)
    ensures Inv(Apply(s, EndOfLife))
  {
    var t := Apply(s, EndOfLife);
    LogsStay(s, t);
    forall b | b in t.actors
      ensures PcInv(t, b, t.actors[b])
    {
      assert PcInv(s, b, s.actors[b]);
    }
    forall c | 0 <= c < |t.streams|
      ensures StreamInv(t, c)
    {
      assert StreamInv(s, c);
    }
  }

  lemma OperateKeepsInv(s: State, ev: Event)
    requires Inv(s) && Enabled(s, ev) && Operating(ev) && !ev.EndOfLife?
    ensures Inv(Apply(s, ev))
  {
    var t := Apply(s, ev);
    LogsStay(s, t);
    assert ev.a in s.actors ==> PcInv(s, ev.a, s.actors[ev.a]);
    if t.results != s.results {
      assert t.results == s.results + [t.results[|s.results|]];
    }
    MoveKeepsInv(s, t, ev.a);
  }

  lemma OpenKeepsInv(s: State, ev: Event)
    requires Inv(s) && Enabled(s, ev) && !Operating(ev) && !Uses(ev)
    ensures Inv(Apply(s, ev))
  {
    var t := Apply(s, ev);
    LogsStay(s, t);
    assert ev.a in s.actors ==> PcInv(s, ev.a, s.actors[ev.a]);
    if About(At(s, ev.a)) {
      assert StreamInv(s, At(s, ev.a).c);
    }
    MoveKeepsInv(s, t, ev.a);
  }

  lemma ReadKeepsInv(s: State, ev: Event)
    requires Inv(s) && Enabled(s, ev) && Uses(ev) && !ev.CloseStep? && !ev.DropStep?
    ensures Inv(Apply(s, ev))
  {
    var t := Apply(s, ev);
    LogsStay(s, t);
    assert PcInv(s, ev.a, s.actors[ev.a]);
    assert StreamInv(s, At(s, ev.a).c);
    if t.readings != s.readings {
      assert t.readings == s.readings + [t.readings[|s.readings|]];
    }
    MoveKeepsInv(s, t, ev.a);
  }

  lemma CloseKeepsInv(s: State, ev: Event)
    requires Inv(s) && Enabled(s, ev) && (ev.CloseStep? || ev.DropStep?)
    ensures Inv(Apply(s, ev))
  {
    LogsStay(s, Apply(s, ev));
    assert PcInv(s, ev.a, s.actors[ev.a]);
    assert StreamInv(s, At(s, ev.a).c);
    MoveKeepsInv(s, Apply(s, ev), ev.a);
  }

  lemma StepKeepsInv(s: State, ev: Event)
    requires Inv(s) && Enabled(s, ev)
    ensures Inv(Apply(s, ev))
  {
    if ev.EndOfLife? {
      EndKeepsInv(s);
    } else if Operating(ev) {
      OperateKeepsInv(s, ev);
    } else if ev.CloseStep? || ev.DropStep? {
      CloseKeepsInv(s, ev);
    } else if Uses(ev) {
      ReadKeepsInv(s, ev);
    } else {
      OpenKeepsInv(s, ev);
    }
  }

  lemma {:induction false} RunKeepsInv(s: State, evs: seq<Event>, t: State)
    requires Inv(s) && Run(s, evs, t)
    ensures Inv(t)
    decreases |evs|
  {
    if evs != [] {
      StepKeepsInv(s, evs[0]);
      RunKeepsInv(Apply(s, evs[0]), evs[1..], t);
    }
  }

  // ---- the results ----

  /** An operation reports the driver unavailable exactly when its last look at the life followed the end; only
      a successful Classify is let through without a second look, and one begun after the end is refused like
      every other. */
  lemma UnavailableExactlyAfterEnd(evs: seq<Event>, t: State, r: nat)
    requires Run(Init(), evs, t) && r < |t.results|
    ensures var x := t.results[r];
            && (!(x.kind.Classify? && x.outcome.Success?) ==>
                  (x.outcome.Unavailable? <==> t.ended && t.endedAt < x.checkedAt))
            && (t.ended && t.endedAt < x.begun ==> x.outcome.Unavailable?)
  {
    RunKeepsInv(Init(), evs, t);
    assert ResultInv(t, t.results[r]);
  }

  /** A row stream is handed to its caller only if the look after it was opened came before the end of life. */
  lemma HandedOnlyWhileAlive(evs: seq<Event>, t: State, c: nat)
    requires Run(Init(), evs, t) && c < |t.streams| && t.streams[c].handed
    ensures t.streams[c].cursor && (t.ended ==> t.streams[c].handedAt < t.endedAt)
  {
    RunKeepsInv(Init(), evs, t);
    assert StreamInv(t, c);
  }

  /** The actor still has the extension's cursor of stream c in its hands. */
  predicate HasCursor(pc: Pc, c: nat) {
    About(pc) && pc.c == c &&
    (pc.StreamFinal? ==> pc.ok) && !pc.StreamCheck? && !pc.StreamRun? &&
    (pc.With? || pc.InNext? || pc.InErr? ==> !pc.shut)
  }

  /** Every cursor the extension opened is closed, or still with the call that opened it or the caller it was
      handed to; one that was not handed out is closed once. */
  lemma CursorsAreClosedOrHeld(evs: seq<Event>, t: State, c: nat)
    requires Run(Init(), evs, t) && c < |t.streams|
    ensures t.streams[c].cursor ==> (t.streams[c].closes == 0 <==> HasCursor(At(t, t.streams[c].owner), c))
    ensures t.streams[c].closes > 0 ==> t.streams[c].cursor
    ensures !t.streams[c].handed ==> t.streams[c].closes <= 1
    ensures forall a :: HasCursor(At(t, a), c) ==> a == t.streams[c].owner
  {
    RunKeepsInv(Init(), evs, t);
    assert StreamInv(t, c);
    assert forall a :: a in t.actors ==> PcInv(t, a, t.actors[a]);
  }

  /** The context of a stream is released at most once, however often the cursor is closed, and is still to be
      released exactly while its owner has the stream under way or open. */
  lemma StreamReleasedOnce(evs: seq<Event>, t: State, c: nat)
    requires Run(Init(), evs, t) && c < |t.streams|
    ensures t.streams[c].releases <= 1
    ensures t.streams[c].releases == 0 <==> Owned(t, c)
  {
    RunKeepsInv(Init(), evs, t);
    assert StreamInv(t, c);
    assert forall a :: a in t.actors ==> PcInv(t, a, t.actors[a]);
  }

  /** Reading after the end: a Next that looked after it answers no without asking the extension, an Err that
      looked after it reports the driver unavailable and no other Err does. So a reader whose Next stopped
      because of the end is told so by any Err it asks afterwards. */
  lemma ReadersLearnOfTheEnd(evs: seq<Event>, t: State, r: nat, q: nat)
    requires Run(Init(), evs, t) && r < |t.readings| && q < |t.readings|
    ensures t.readings[r].NextRead? && t.ended && t.endedAt < t.readings[r].checkedAt ==>
              !t.readings[r].more && !t.readings[r].asked
    ensures t.readings[r].ErrRead? ==>
              (t.readings[r].outcome.Unavailable? <==> t.ended && t.endedAt < t.readings[r].checkedAt)
    ensures t.readings[r].NextRead? && !t.readings[r].asked &&
            t.readings[q].ErrRead? && t.readings[r].checkedAt <= t.readings[q].checkedAt ==>
              t.readings[q].outcome.Unavailable?
  {
    RunKeepsInv(Init(), evs, t);
    assert ReadInv(t, t.readings[r]) && ReadInv(t, t.readings[q]);
  }
}
