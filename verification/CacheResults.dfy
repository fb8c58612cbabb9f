/** How new the connection is that GetOrDial hands out. A cached entry is newer than every invalidation so
    far. A shared dial's answer is newer than exactly the invalidations that came before the answer; so a call
    is handed an older connection exactly when it joins a dial that was answered before the invalidation. */
module CacheResults {
  import opened CacheMachine
  import opened CacheSafety
  import opened CacheIdle

  /** The flight was answered with entry i at step `at`: found in the cache, or inserted. */
  predicate Answers(pc: FlightPc, i: nat, at: nat) {
    Answered(pc) && pc.r == Client(i) && pc.at == at
  }

  predicate Answered(pc: FlightPc) {
    pc.FReturn? || pc.FDone?
  }

  /** The dial of entry i began before invalidation d. */
  predicate Older(s: State, i: nat, d: Invalidation)
    requires i < |s.heap|
  {
    s.heap[i].dialedAt < d.at
  }

  /** An answer is of the flight's key and no longer carried by a flight, its dial precedes it, and it is newer
      than the invalidations before. */
  ghost predicate AnswerFresh(s: State, fl: Flight, i: nat, at: nat) {
    && i < |s.heap| && s.heap[i].key == fl.key && !s.heap[i].place.WithFlight?
    && s.heap[i].dialedAt < at < s.step
    && forall d :: 0 <= d < |s.invalidations| && s.invalidations[d].Concerns(fl.key.asset) ==>
         s.invalidations[d].at != at && (s.invalidations[d].at < at ==> s.heap[i].dialedAt > s.invalidations[d].at)
  }

  ghost predicate FlightOk(s: State, fl: Flight) {
    && (fl.pc.FDial? ==> fl.pc.since < s.step)
    && (forall i: nat, at: nat :: Answers(fl.pc, i, at) ==> AnswerFresh(s, fl, i, at))
  }

  /** The latest invalidations are the ones the cache's freshness speaks of. */
  ghost predicate HistoryOk(s: State) {
    forall d :: 0 <= d < |s.invalidations| ==>
      && s.invalidations[d].at < s.step
      && match s.invalidations[d]
         case OfAsset(asset, at) => at <= LastDrop(s, asset)
         case OfAll(at) => at <= s.lastClose
  }

  ghost predicate DialsPast(s: State) {
    forall i :: 0 <= i < |s.heap| ==> s.heap[i].dialedAt < s.step
  }

  ghost predicate AnswersInv(s: State) {
    HistoryOk(s) && DialsPast(s) && forall f :: 0 <= f < |s.flights| ==> FlightOk(s, s.flights[f])
  }

  // ---- what every step does to answers ----

  /** Dials stay, new ones lie in the past, and an invalidation is recorded at its step. */
  ghost predicate Goes(s: State, t: State) {
    && SameDials(s, t) && t.step == s.step + 1
    && (forall i :: 0 <= i < |s.heap| && !s.heap[i].place.WithFlight? ==> !t.heap[i].place.WithFlight?)
    && (forall i :: |s.heap| <= i < |t.heap| ==> t.heap[i].dialedAt < t.step)
    && |s.invalidations| <= |t.invalidations|
    && (forall d :: 0 <= d < |s.invalidations| ==> t.invalidations[d] == s.invalidations[d])
    && (forall d :: |s.invalidations| <= d < |t.invalidations| ==> t.invalidations[d].at == s.step)
  }

  lemma AnswersStay(s: State, t: State, fl: Flight)
    requires FlightOk(s, fl) && Goes(s, t)
    ensures FlightOk(t, fl)
  {
    forall i: nat, at: nat | Answers(fl.pc, i, at)
      ensures AnswerFresh(t, fl, i, at)
    {
      assert AnswerFresh(s, fl, i, at);
    }
  }

  /** An entry newer than the latest invalidations is newer than all of them. */
  lemma FreshAnswer(s: State, t: State, fl: Flight, i: nat)
    requires HistoryOk(s) && Goes(s, t) && t.invalidations == s.invalidations
    requires i < |s.heap| && s.heap[i].key == fl.key && s.heap[i].dialedAt < s.step && !t.heap[i].place.WithFlight?
    requires s.heap[i].dialedAt > LastDrop(s, fl.key.asset) && s.heap[i].dialedAt > s.lastClose
    ensures AnswerFresh(t, fl, i, s.step)
  {
  }

  lemma UseGoes(s: State, ev: Event)
    requires Uses(ev) && Enabled(s, ev)
    ensures Goes(s, Next(Use(s, ev))) && Use(s, ev).invalidations == s.invalidations
  {
    UseIsCalm(s, ev);
  }

  lemma DialKeepsPlaces(s: State, ev: Event)
    requires Flies(ev) && Enabled(s, ev)
    ensures forall i :: 0 <= i < |s.heap| && !s.heap[i].place.WithFlight? ==>
              i < |Fly(s, ev).heap| && !Fly(s, ev).heap[i].place.WithFlight?
  {
  }

  lemma SettingFlightsDialsNothing(s: State, f: nat, pc: FlightPc)
    requires f < |s.flights|
    ensures SetFlight(s, f, pc).invalidations == s.invalidations && SetFlight(s, f, pc).heap == s.heap
  {
  }

  lemma OnlyDialOkDials(s: State, ev: Event)
    requires Flies(ev) && Enabled(s, ev)
    ensures Fly(s, ev).invalidations == s.invalidations
    ensures !ev.DialOk? ==> |Fly(s, ev).heap| == |s.heap|
  {
    var fl := s.flights[ev.f];
    if ev.FlightCheck? && fl.key in s.entries {
      var i := s.entries[fl.key];
      SettingFlightsDialsNothing(SetEntry(s, i, s.heap[i].(lastUsed := s.now)), ev.f, FReturn(Client(i), s.step));
    } else if ev.FlightInsert? && Gen(s, fl.key.asset) == fl.gen {
      var i := fl.pc.e;
      SettingFlightsDialsNothing(SetEntry(s, i, s.heap[i].(place := Cached)).(entries := s.entries[fl.key := i]),
                                 ev.f, FReturn(Client(i), s.step));
    } else {
      OtherFlightsDialNothing(s, ev);
    }
  }

  lemma OtherFlightsDialNothing(s: State, ev: Event)
    requires Flies(ev) && Enabled(s, ev)
    requires ev.FlightCheck? ==> s.flights[ev.f].key !in s.entries
    requires ev.FlightInsert? ==> Gen(s, s.flights[ev.f].key.asset) != s.flights[ev.f].gen
    ensures Fly(s, ev).invalidations == s.invalidations
    ensures !ev.DialOk? ==> |Fly(s, ev).heap| == |s.heap|
  {
  }

  lemma DialedBefore(s: State, f: nat)
    requires AnswersInv(s) && Enabled(s, DialOk(f))
    ensures |Fly(s, DialOk(f)).heap| == |s.heap| + 1 && Fly(s, DialOk(f)).heap[|s.heap|].dialedAt < s.step
  {
    assert FlightOk(s, s.flights[f]);
  }

  lemma DialGoes(s: State, ev: Event)
    requires AnswersInv(s) && Flies(ev) && Enabled(s, ev)
    ensures Goes(s, Next(Fly(s, ev))) && Fly(s, ev).invalidations == s.invalidations
  {
    FlyIsCalm(s, ev);
    DialKeepsPlaces(s, ev);
    OnlyDialOkDials(s, ev);
    if ev.DialOk? {
      DialedBefore(s, ev.f);
    }
  }

  lemma DiscardGoes(idleTTL: int, s: State, ev: Event)
    requires !Uses(ev) && !Flies(ev) && Enabled(s, ev)
    ensures Goes(s, Next(Discard(idleTTL, s, ev))) && Discard(idleTTL, s, ev).flights == s.flights
  {
    if !ev.DropAssetStep? && !ev.CloseStep? {
      DiscardIsCalm(idleTTL, s, ev);
    }
  }

  // ---- history ----

  lemma CalmHistory(s: State, t: State)
    requires HistoryOk(s) && Calm(s, t) && t.invalidations == s.invalidations
    ensures HistoryOk(Next(t))
  {
    forall d | 0 <= d < |t.invalidations|
      ensures match t.invalidations[d]
              case OfAsset(asset, at) => at <= LastDrop(Next(t), asset)
              case OfAll(at) => at <= Next(t).lastClose
    {
      assert t.invalidations[d] == s.invalidations[d];
    }
  }

  lemma DiscardHistory(idleTTL: int, s: State, ev: Event)
    requires HistoryOk(s) && FreshInv(s) && !Uses(ev) && !Flies(ev) && Enabled(s, ev)
    ensures HistoryOk(Next(Discard(idleTTL, s, ev)))
  {
    if !ev.DropAssetStep? && !ev.CloseStep? {
      DiscardIsCalm(idleTTL, s, ev);
      CalmHistory(s, Discard(idleTTL, s, ev));
    }
  }

  // ---- every step keeps answers ----

  lemma OthersKeepAnswers(s: State, t: State)
    requires AnswersInv(s) && Goes(s, t) && HistoryOk(t) && |s.flights| <= |t.flights|
    requires forall f :: 0 <= f < |s.flights| ==> t.flights[f] == s.flights[f] || FlightOk(t, t.flights[f])
    requires forall f :: |s.flights| <= f < |t.flights| ==> FlightOk(t, t.flights[f])
    ensures AnswersInv(t)
  {
    forall f | 0 <= f < |t.flights|
      ensures FlightOk(t, t.flights[f])
    {
      if f < |s.flights| && t.flights[f] == s.flights[f] {
        AnswersStay(s, t, s.flights[f]);
      }
    }
  }

  lemma JoinAddsFlight(s: State, a: nat)
    requires At(s, a).GetJoin?
    ensures var t := Join(s, a);
            && |s.flights| <= |t.flights|
            && (forall f :: 0 <= f < |s.flights| ==> t.flights[f] == s.flights[f])
            && (forall f :: |s.flights| <= f < |t.flights| ==> t.flights[f].pc.FCheck?)
  {
  }

  lemma UseKeepsAnswers(s: State, ev: Event)
    requires AnswersInv(s) && Uses(ev) && Enabled(s, ev)
    ensures AnswersInv(Next(Use(s, ev)))
  {
    UseIsCalm(s, ev);
    UseGoes(s, ev);
    CalmHistory(s, Use(s, ev));
    if ev.JoinStep? {
      JoinAddsFlight(s, ev.a);
    }
    OthersKeepAnswers(s, Next(Use(s, ev)));
  }

  /** A cache hit inside a dial. */
  lemma CheckAnswers(s: State, f: nat)
    requires Inv(s) && FreshInv(s) && AnswersInv(s) && Enabled(s, FlightCheck(f))
    ensures FlightOk(Next(Fly(s, FlightCheck(f))), Fly(s, FlightCheck(f)).flights[f])
  {
    var key := s.flights[f].key;
    DialGoes(s, FlightCheck(f));
    if key in s.entries {
      CheckHits(s, f);
      HitAnswers(s, Next(Fly(s, FlightCheck(f))), s.flights[f].(pc := FReturn(Client(s.entries[key]), s.step)),
                 s.entries[key]);
    } else {
      CheckMisses(s, f);
    }
  }

  lemma CheckHits(s: State, f: nat)
    requires Enabled(s, FlightCheck(f)) && s.flights[f].key in s.entries
    ensures var t, i := Fly(s, FlightCheck(f)), s.entries[s.flights[f].key];
            && t.flights[f] == s.flights[f].(pc := FReturn(Client(i), s.step))
            && t.heap[i].place == s.heap[i].place && t.invalidations == s.invalidations
  {
  }

  lemma CheckMisses(s: State, f: nat)
    requires Enabled(s, FlightCheck(f)) && s.flights[f].key !in s.entries
    ensures Fly(s, FlightCheck(f)).flights[f].pc == FDial(s.step)
  {
  }

  lemma HitAnswers(s: State, t: State, fl: Flight, i: nat)
    requires Inv(s) && FreshInv(s) && AnswersInv(s) && Goes(s, t) && t.invalidations == s.invalidations
    requires fl.key in s.entries && s.entries[fl.key] == i && fl.pc == FReturn(Client(i), s.step)
    ensures FlightOk(t, fl)
  {
    assert EntryFresh(s, fl.key);
    FreshAnswer(s, t, fl, i);
  }

  lemma InsertAnswers(s: State, f: nat)
    requires Inv(s) && FreshInv(s) && AnswersInv(s) && Enabled(s, FlightInsert(f))
    ensures FlightOk(Next(Insert(s, f)), Insert(s, f).flights[f])
  {
    var t := Next(Fly(s, FlightInsert(f)));
    assert FlightInv(s, f) && FlightFresh(s, f);
    DialGoes(s, FlightInsert(f));
    if Gen(s, s.flights[f].key.asset) == s.flights[f].gen {
      FreshAnswer(s, t, t.flights[f], s.flights[f].pc.e);
    }
  }

  lemma EndKeepsAnswer(s: State, f: nat)
    requires AnswersInv(s) && Enabled(s, FlightEnd(f))
    ensures FlightOk(Next(Fly(s, FlightEnd(f))), Fly(s, FlightEnd(f)).flights[f])
  {
    var t := Next(Fly(s, FlightEnd(f)));
    DialGoes(s, FlightEnd(f));
    AnswersStay(s, t, s.flights[f]);
    forall i: nat, at: nat | Answers(t.flights[f].pc, i, at)
      ensures AnswerFresh(t, t.flights[f], i, at)
    {
      assert Answers(s.flights[f].pc, i, at);
      assert AnswerFresh(t, s.flights[f], i, at);
    }
  }

  lemma OthersAnswerNothing(s: State, ev: Event)
    requires Flies(ev) && Enabled(s, ev) && !ev.FlightCheck? && !ev.FlightInsert? && !ev.FlightEnd?
    ensures ev.f < |Fly(s, ev).flights| && FlightOk(Next(Fly(s, ev)), Fly(s, ev).flights[ev.f])
  {
  }

  lemma FlyKeepsAnswers(s: State, ev: Event)
    requires Inv(s) && FreshInv(s) && AnswersInv(s) && Flies(ev) && Enabled(s, ev)
    ensures AnswersInv(Next(Fly(s, ev)))
  {
    FlyIsCalm(s, ev);
    FlyMovesOneFlight(s, ev);
    DialGoes(s, ev);
    CalmHistory(s, Fly(s, ev));
    if ev.FlightCheck? {
      CheckAnswers(s, ev.f);
    } else if ev.FlightInsert? {
      InsertAnswers(s, ev.f);
    } else if ev.FlightEnd? {
      EndKeepsAnswer(s, ev.f);
    } else {
      OthersAnswerNothing(s, ev);
    }
    OthersKeepAnswers(s, Next(Fly(s, ev)));
  }

  lemma StepKeepsAnswers(idleTTL: int, s: State, ev: Event)
    requires Inv(s) && FreshInv(s) && AnswersInv(s) && Enabled(s, ev)
    ensures AnswersInv(Apply(idleTTL, s, ev))
  {
    if Uses(ev) {
      UseKeepsAnswers(s, ev);
    } else if Flies(ev) {
      FlyKeepsAnswers(s, ev);
    } else {
      DiscardGoes(idleTTL, s, ev);
      DiscardHistory(idleTTL, s, ev);
      OthersKeepAnswers(s, Next(Discard(idleTTL, s, ev)));
    }
  }

  ghost predicate AllInv(s: State) {
    Inv(s) && FreshInv(s) && AnswersInv(s)
  }

  lemma StepKeepsAll(idleTTL: int, s: State, ev: Event)
    requires AllInv(s) && Enabled(s, ev)
    ensures AllInv(Apply(idleTTL, s, ev))
  {
    CacheSafety.StepKeepsInv(idleTTL, s, ev);
    StepKeepsFresh(idleTTL, s, ev);
    StepKeepsAnswers(idleTTL, s, ev);
  }

  lemma {:induction false} RunKeepsAnswers(idleTTL: int, s: State, evs: seq<Event>, t: State)
    requires AllInv(s) && Run(idleTTL, s, evs, t)
    ensures AllInv(t)
    decreases |evs|
  {
    if evs != [] {
      StepKeepsAll(idleTTL, s, evs[0]);
      RunKeepsAnswers(idleTTL, Apply(idleTTL, s, evs[0]), evs[1..], t);
    }
  }

  // ---- an answer, once given, is final ----

  /** From s on, flight f keeps its answer; one it gets later is given later. */
  ghost predicate AnswerKept(s: State, t: State, f: nat) {
    f < |s.flights| <= |t.flights| && s.step <= t.step && FlightKept(s.flights[f], t.flights[f], s.step)
  }

  predicate FlightKept(was: Flight, fl: Flight, step: nat) {
    && fl.key == was.key
    && if Answered(was.pc) then Answered(fl.pc) && fl.pc.r == was.pc.r && fl.pc.at == was.pc.at
       else Answered(fl.pc) ==> fl.pc.at >= step
  }

  lemma SetKeepsAnswer(s: State, f: nat, pc: FlightPc)
    requires f < |s.flights| && !Answered(s.flights[f].pc) && (Answered(pc) ==> pc.at >= s.step)
    ensures f < |SetFlight(s, f, pc).flights| && FlightKept(s.flights[f], SetFlight(s, f, pc).flights[f], s.step)
  {
  }

  lemma CheckKeepsAnswer(s: State, f: nat)
    requires Enabled(s, FlightCheck(f))
    ensures f < |Fly(s, FlightCheck(f)).flights|
    ensures FlightKept(s.flights[f], Fly(s, FlightCheck(f)).flights[f], s.step)
  {
    var key := s.flights[f].key;
    if key in s.entries {
      var i := s.entries[key];
      SetKeepsAnswer(SetEntry(s, i, s.heap[i].(lastUsed := s.now)), f, FReturn(Client(i), s.step));
    } else {
      SetKeepsAnswer(s, f, FDial(s.step));
    }
  }

  lemma InsertKeepsAnswer(s: State, f: nat)
    requires FlightAt(s, f) && s.flights[f].pc.FInsert? && s.flights[f].pc.e < |s.heap|
    ensures f < |Insert(s, f).flights| && FlightKept(s.flights[f], Insert(s, f).flights[f], s.step)
  {
    var fl := s.flights[f];
    var i := fl.pc.e;
    if Gen(s, fl.key.asset) != fl.gen {
      SetKeepsAnswer(s, f, FDiscard(i));
    } else {
      SetKeepsAnswer(SetEntry(s, i, s.heap[i].(place := Cached)).(entries := s.entries[fl.key := i]),
                     f, FReturn(Client(i), s.step));
    }
  }

  lemma OtherKeepsAnswer(s: State, ev: Event)
    requires Flies(ev) && Enabled(s, ev) && !ev.FlightCheck? && !ev.FlightInsert?
    ensures ev.f < |Fly(s, ev).flights| && FlightKept(s.flights[ev.f], Fly(s, ev).flights[ev.f], s.step)
  {
  }

  lemma MovedKeepsAnswer(s: State, ev: Event)
    requires Flies(ev) && Enabled(s, ev)
    ensures ev.f < |Fly(s, ev).flights| && FlightKept(s.flights[ev.f], Fly(s, ev).flights[ev.f], s.step)
  {
    if ev.FlightCheck? {
      CheckKeepsAnswer(s, ev.f);
    } else if ev.FlightInsert? {
      InsertKeepsAnswer(s, ev.f);
    } else {
      OtherKeepsAnswer(s, ev);
    }
  }

  lemma FlyKeepsAnswer(s: State, ev: Event, f: nat)
    requires Flies(ev) && Enabled(s, ev) && f < |s.flights|
    ensures AnswerKept(s, Next(Fly(s, ev)), f)
  {
    FlyMovesOneFlight(s, ev);
    MovedKeepsAnswer(s, ev);
    assert Fly(s, ev).step == s.step by {
      FlyIsCalm(s, ev);
    }
  }

  lemma UseKeepsAnswer(s: State, ev: Event, f: nat)
    requires Uses(ev) && Enabled(s, ev) && f < |s.flights|
    ensures AnswerKept(s, Next(Use(s, ev)), f)
  {
    UseIsCalm(s, ev);
    if ev.JoinStep? {
      JoinAddsFlight(s, ev.a);
    }
  }

  lemma StepKeepsAnswer(idleTTL: int, s: State, ev: Event, f: nat)
    requires Enabled(s, ev) && f < |s.flights|
    ensures AnswerKept(s, Apply(idleTTL, s, ev), f)
  {
    if Uses(ev) {
      UseKeepsAnswer(s, ev, f);
    } else if Flies(ev) {
      FlyKeepsAnswer(s, ev, f);
    } else {
      DiscardGoes(idleTTL, s, ev);
    }
  }

  lemma StepGoes(idleTTL: int, s: State, ev: Event)
    requires AnswersInv(s) && Enabled(s, ev)
    ensures Goes(s, Apply(idleTTL, s, ev))
  {
    if Uses(ev) {
      UseGoes(s, ev);
    } else if Flies(ev) {
      DialGoes(s, ev);
    } else {
      DiscardGoes(idleTTL, s, ev);
    }
  }

  lemma {:induction false} RunKeepsAnswer(idleTTL: int, s: State, evs: seq<Event>, t: State, f: nat)
    requires AllInv(s) && Run(idleTTL, s, evs, t) && f < |s.flights|
    ensures AnswerKept(s, t, f) && s.invalidations <= t.invalidations
    decreases |evs|
  {
    if evs != [] {
      var u := Apply(idleTTL, s, evs[0]);
      StepKeepsAll(idleTTL, s, evs[0]);
      StepGoes(idleTTL, s, evs[0]);
      StepKeepsAnswer(idleTTL, s, evs[0], f);
      RunKeepsAnswer(idleTTL, u, evs[1..], t, f);
    }
  }

  // ---- the results ----

  lemma InitOk()
    ensures AllInv(Init())
  {
  }

  /** Entry i is under no key, and closed or about to be closed by the actor that took it out. */
  ghost predicate Discarded(s: State, i: nat) {
    && i < |s.heap| && (forall k :: k in s.entries ==> s.entries[k] != i)
    && (s.heap[i].closes == 1 || exists a :: a in s.actors && i in s.actors[a].ToClose())
  }

  lemma OlderIsDiscarded(s: State, fl: Flight, i: nat, at: nat, d: Invalidation)
    requires AllInv(s) && AnswerFresh(s, fl, i, at)
    requires d in s.invalidations && d.Concerns(fl.key.asset) && Older(s, i, d)
    ensures Discarded(s, i)
  {
    assert PlaceInv(s, i);
    assert fl.key in s.entries ==> EntryFresh(s, fl.key);
    if s.heap[i].place.WithCloser? {
      assert s.heap[i].place.a in s.actors;
    }
  }

  /** Main result: in every run, the connection a shared dial answers with is older than an invalidation of its
      asset exactly when the invalidation came after the answer; an older one has left the cache and is closed
      or being closed. */
  lemma OlderExactlyThanLater(idleTTL: int, evs: seq<Event>, t: State, f: nat, i: nat, at: nat, d: nat)
    requires Run(idleTTL, Init(), evs, t) && f < |t.flights| && Answers(t.flights[f].pc, i, at)
    requires d < |t.invalidations| && t.invalidations[d].Concerns(t.flights[f].key.asset)
    ensures i < |t.heap| && t.heap[i].key == t.flights[f].key
    ensures Older(t, i, t.invalidations[d]) <==> at < t.invalidations[d].at
    ensures Older(t, i, t.invalidations[d]) ==> Discarded(t, i)
  {
    InitOk();
    RunKeepsAnswers(idleTTL, Init(), evs, t);
    assert FlightOk(t, t.flights[f]) && AnswerFresh(t, t.flights[f], i, at);
    if Older(t, i, t.invalidations[d]) {
      OlderIsDiscarded(t, t.flights[f], i, at, t.invalidations[d]);
    }
  }

  /** The flight a caller enters at its JoinStep: the running one of its key, or a new one. */
  function Joined(s: State, a: nat): nat
    requires At(s, a).GetJoin?
  {
    if At(s, a).key in s.running then s.running[At(s, a).key] else |s.flights|
  }

  /** What a caller sees when it joins: the running dial of its key has been answered before the invalidation. */
  predicate JoinsEarlierAnswer(s: State, a: nat, d: Invalidation)
    requires At(s, a).GetJoin?
  {
    && At(s, a).key in s.running && Joined(s, a) < |s.flights|
    && s.flights[Joined(s, a)].pc.FReturn? && s.flights[Joined(s, a)].pc.at < d.at
  }

  lemma JoinEnters(s: State, a: nat)
    requires Inv(s) && Enabled(s, JoinStep(a))
    ensures var f, u := Joined(s, a), Join(s, a);
            && f < |u.flights| && u.flights[f].key == At(s, a).key
            && (At(s, a).key in s.running ==>
                  f < |s.flights| && u.flights[f] == s.flights[f] && !s.flights[f].pc.FDone?)
            && (At(s, a).key !in s.running ==> u.flights[f].pc.FCheck?)
            && u.invalidations == s.invalidations && u.step == s.step
  {
    assert At(s, a).key in s.running ==> FlightInv(s, Joined(s, a));
  }

  /** The answer a caller joined, or waited for: the one the running dial had, or one given later. */
  lemma JoinedAnswer(idleTTL: int, s: State, a: nat, after: seq<Event>, t: State, i: nat, at: nat)
    requires AllInv(s) && Enabled(s, JoinStep(a)) && Run(idleTTL, Next(Join(s, a)), after, t)
    requires Joined(s, a) < |t.flights| && Answers(t.flights[Joined(s, a)].pc, i, at)
    ensures AllInv(t) && t.flights[Joined(s, a)].key == At(s, a).key && s.invalidations <= t.invalidations
    ensures if At(s, a).key in s.running && Joined(s, a) < |s.flights| && s.flights[Joined(s, a)].pc.FReturn?
            then at == s.flights[Joined(s, a)].pc.at
            else at >= s.step
  {
    var u, f := Next(Join(s, a)), Joined(s, a);
    assert u == Apply(idleTTL, s, JoinStep(a));
    StepKeepsAll(idleTTL, s, JoinStep(a));
    JoinEnters(s, a);
    RunKeepsAnswers(idleTTL, u, after, t);
    RunKeepsAnswer(idleTTL, u, after, t, f);
  }

  /** Main result, for the caller: take any invalidation of its asset that came before the caller joined, so
      any that came before its call. The connection it is handed in the end is older than the invalidation
      exactly when it joined a dial that had been answered before the invalidation, and is then closed or being
      closed. */
  lemma CallerGetsOlderExactlyWhen(
      idleTTL: int, before: seq<Event>, s: State, a: nat, after: seq<Event>, t: State, i: nat, at: nat, d: nat)
    requires Run(idleTTL, Init(), before, s) && Enabled(s, JoinStep(a)) && Run(idleTTL, Next(Join(s, a)), after, t)
    requires Joined(s, a) < |t.flights| && Answers(t.flights[Joined(s, a)].pc, i, at)
    requires d < |s.invalidations| && s.invalidations[d].Concerns(At(s, a).key.asset)
    ensures i < |t.heap| && t.heap[i].key == At(s, a).key
    ensures Older(t, i, s.invalidations[d]) <==> JoinsEarlierAnswer(s, a, s.invalidations[d])
    ensures Older(t, i, s.invalidations[d]) ==> Discarded(t, i)
  {
    InitOk();
    RunKeepsAnswers(idleTTL, Init(), before, s);
    JoinedAnswer(idleTTL, s, a, after, t, i, at);
    assert t.invalidations[d] == s.invalidations[d];
    assert FlightOk(t, t.flights[Joined(s, a)]) && AnswerFresh(t, t.flights[Joined(s, a)], i, at);
    if Older(t, i, s.invalidations[d]) {
      OlderIsDiscarded(t, t.flights[Joined(s, a)], i, at, s.invalidations[d]);
    }
  }

  /** A call that finds no dial of its key running is handed a connection newer than every invalidation before
      it joined. */
  lemma OwnDialIsFresh(
      idleTTL: int, before: seq<Event>, s: State, a: nat, after: seq<Event>, t: State, i: nat, at: nat, d: nat)
    requires Run(idleTTL, Init(), before, s) && Enabled(s, JoinStep(a)) && Run(idleTTL, Next(Join(s, a)), after, t)
    requires At(s, a).key !in s.running
    requires Joined(s, a) < |t.flights| && Answers(t.flights[Joined(s, a)].pc, i, at)
    requires d < |s.invalidations| && s.invalidations[d].Concerns(At(s, a).key.asset)
    ensures i < |t.heap| && !Older(t, i, s.invalidations[d])
  {
    CallerGetsOlderExactlyWhen(idleTTL, before, s, a, after, t, i, at, d);
  }

  /** And so is one that finds an entry in the cache. */
  lemma HitIsFresh(idleTTL: int, evs: seq<Event>, t: State, a: nat, d: nat)
    requires Run(idleTTL, Init(), evs, t) && Enabled(t, LookupStep(a)) && At(t, a).key in t.entries
    requires d < |t.invalidations| && t.invalidations[d].Concerns(At(t, a).key.asset)
    ensures t.entries[At(t, a).key] < |t.heap| && !Older(t, t.entries[At(t, a).key], t.invalidations[d])
  {
    InitOk();
    RunKeepsAnswers(idleTTL, Init(), evs, t);
    assert EntryFresh(t, At(t, a).key);
  }
}
