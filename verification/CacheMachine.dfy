/** AssetConnCache (internal/connpool/conncache.go) as a state machine: one event is one
    critical section of c.mu, one atomic access outside it, or one step of a dial. */
module CacheMachine {

  /** A cache key; it determines its asset. */
  datatype Key = Key(asset: int, name: string)

  /** Where a dialed connection is; history only, tied to the real state by the invariant. */
  datatype Place = WithFlight(f: nat) | Cached | WithCloser(a: nat) | Closed

  /** dialedAt is the step at which the dial began and releasedAt the time of the latest
      finished hold; both are history. */
  datatype Entry = Entry(key: Key, lastUsed: int, holds: int, closes: nat, dialedAt: nat, releasedAt: int, place: Place)

  datatype DialResult = Client(e: nat) | Failed | Invalidated

  datatype FlightPc =
    | FCheck
    | FDial(since: nat)
    | FInsert(e: nat)     // dialed; about to compare generations
    | FDiscard(e: nat)    // invalidated meanwhile; about to close
    | FReturn(r: DialResult, at: nat)   // answered at step `at`, still registered under its key
    | FDone(r: DialResult, at: nat)

  /** gen was read by the initiating GetOrDial at step seen. */
  datatype Flight = Flight(key: Key, gen: nat, seen: nat, pc: FlightPc)

  /** A DropAsset or a Close and the step it took. */
  datatype Invalidation = OfAsset(asset: int, at: nat) | OfAll(at: nat)
  {
    predicate Concerns(asset: int) {
      OfAll? || this.asset == asset
    }
  }

  datatype Pc =
    | Done
    | GetLookup(key: Key)
    | GetJoin(key: Key, gen: nat, seen: nat)
    | GetWait(key: Key, f: nat)
    | HoldAt(key: Key)
    | Holding(e: nat)
    | Releasing(e: nat)            // lastUsed stored, holds not yet lowered
    | DropAt(key: Key)
    | DropAssetAt(asset: int)
    | CloseAt
    | Drain(close: set<nat>)
    | EvictAt(tick: int)
    | Evict(threshold: int, todo: set<Key>, stale: set<nat>)
    | EvictRead(threshold: int, todo: set<Key>, stale: set<nat>, key: Key)  // key's holds read as 0
  {
    /** Entries this actor has taken out of the map and has still to close. */
    function ToClose(): set<nat> {
      match this
      case Drain(close) => close
      case Evict(_, _, stale) => stale
      case EvictRead(_, _, stale, _) => stale
      case _ => {}
    }

    /** The actor is an unreleased Hold of entry i. */
    predicate Token(i: nat) {
      (Holding? || Releasing?) && e == i
    }

    predicate Starts() {
      GetLookup? || HoldAt? || DropAt? || DropAssetAt? || CloseAt? || EvictAt?
    }

    predicate Locks() {
      Evict? || EvictRead?
    }
  }

  /** locked says whether c.mu is held between events, which only a sweep does. The
      invalidations so far are history. */
  datatype State = State(
    now: int,
    step: nat,
    entries: map<Key, nat>,
    heap: seq<Entry>,
    closeGen: nat,
    dropGen: map<int, nat>,
    lastClose: nat,
    lastDrop: map<int, nat>,
    running: map<Key, nat>,
    flights: seq<Flight>,
    actors: map<nat, Pc>,
    locked: bool,
    invalidations: seq<Invalidation>)

  datatype Event =
    | Tick(d: nat)
    | Begin(a: nat, pc: Pc)
    | LookupStep(a: nat)
    | JoinStep(a: nat)
    | WaitStep(a: nat)
    | HoldStep(a: nat)
    | ReleaseStore(a: nat)
    | ReleaseLower(a: nat)
    | DropStep(a: nat)
    | DropAssetStep(a: nat)
    | CloseStep(a: nat)
    | EvictBegin(a: nat)
    | EvictHolds(a: nat, key: Key)
    | EvictUsed(a: nat)
    | EvictEnd(a: nat)
    | DrainClose(a: nat, i: nat)
    | DrainDone(a: nat)
    | FlightCheck(f: nat)
    | DialOk(f: nat)
    | DialFail(f: nat)
    | FlightInsert(f: nat)
    | FlightDiscard(f: nat)
    | FlightEnd(f: nat)

  function Init(): State {
    State(0, 1, map[], [], 0, map[], 0, map[], map[], [], map[], false, [])
  }

  function At(s: State, a: nat): Pc {
    if a in s.actors then s.actors[a] else Done
  }

  function Move(s: State, a: nat, pc: Pc): State {
    s.(actors := s.actors[a := pc])
  }

  function SetEntry(s: State, i: nat, e: Entry): State
    requires i < |s.heap|
  {
    s.(heap := s.heap[i := e])
  }

  function SetFlight(s: State, f: nat, pc: FlightPc): State
    requires f < |s.flights|
  {
    s.(flights := s.flights[f := s.flights[f].(pc := pc)])
  }

  function DropGen(s: State, asset: int): nat {
    if asset in s.dropGen then s.dropGen[asset] else 0
  }

  function LastDrop(s: State, asset: int): nat {
    if asset in s.lastDrop then s.lastDrop[asset] else 0
  }

  /** genLocked */
  function Gen(s: State, asset: int): nat {
    s.closeGen + DropGen(s, asset)
  }

  /** The actor takes the entries of ids out of the map, to close them. */
  function Take(s: State, a: nat, ids: set<nat>): State {
    s.(entries := map k | k in s.entries && s.entries[k] !in ids :: s.entries[k],
       heap := seq(|s.heap|, i requires 0 <= i < |s.heap| =>
                     if i in ids then s.heap[i].(place := WithCloser(a)) else s.heap[i]))
  }

  function CachedIds(s: State): set<nat> {
    set k | k in s.entries :: s.entries[k]
  }

  function CachedOf(s: State, asset: int): set<nat> {
    set k | k in s.entries && s.entries[k] < |s.heap| && s.heap[s.entries[k]].key.asset == asset :: s.entries[k]
  }

  predicate FlightAt(s: State, f: nat) {
    f < |s.flights|
  }

  predicate Enabled(s: State, ev: Event) {
    match ev
    case Tick(_) => true
    case Begin(a, pc) => At(s, a).Done? && pc.Starts()
    case LookupStep(a) =>
      !s.locked && At(s, a).GetLookup? && (At(s, a).key in s.entries ==> s.entries[At(s, a).key] < |s.heap|)
    case JoinStep(a) => At(s, a).GetJoin?
    case WaitStep(a) => At(s, a).GetWait? && FlightAt(s, At(s, a).f) && s.flights[At(s, a).f].pc.FDone?
    case HoldStep(a) =>
      !s.locked && At(s, a).HoldAt? && (At(s, a).key in s.entries ==> s.entries[At(s, a).key] < |s.heap|)
    case ReleaseStore(a) => At(s, a).Holding? && At(s, a).e < |s.heap|
    case ReleaseLower(a) => At(s, a).Releasing? && At(s, a).e < |s.heap|
    case DropStep(a) => !s.locked && At(s, a).DropAt?
    case DropAssetStep(a) => !s.locked && At(s, a).DropAssetAt?
    case CloseStep(a) => !s.locked && At(s, a).CloseAt?
    case EvictBegin(a) => !s.locked && At(s, a).EvictAt?
    case EvictHolds(a, key) =>
      At(s, a).Evict? && key in At(s, a).todo && key in s.entries && s.entries[key] < |s.heap|
    case EvictUsed(a) => At(s, a).EvictRead? && At(s, a).key in s.entries && s.entries[At(s, a).key] < |s.heap|
    case EvictEnd(a) => At(s, a).Evict? && At(s, a).todo == {}
    case DrainClose(a, i) => At(s, a).Drain? && i in At(s, a).close && i < |s.heap|
    case DrainDone(a) => At(s, a).Drain? && At(s, a).close == {}
    case FlightCheck(f) =>
      !s.locked && FlightAt(s, f) && s.flights[f].pc.FCheck?
      && (s.flights[f].key in s.entries ==> s.entries[s.flights[f].key] < |s.heap|)
    case DialOk(f) => FlightAt(s, f) && s.flights[f].pc.FDial?
    case DialFail(f) => FlightAt(s, f) && s.flights[f].pc.FDial?
    case FlightInsert(f) => !s.locked && FlightAt(s, f) && s.flights[f].pc.FInsert? && s.flights[f].pc.e < |s.heap|
    case FlightDiscard(f) => FlightAt(s, f) && s.flights[f].pc.FDiscard? && s.flights[f].pc.e < |s.heap|
    case FlightEnd(f) => FlightAt(s, f) && s.flights[f].pc.FReturn?
  }

  function Apply(idleTTL: int, s: State, ev: Event): State
    requires Enabled(s, ev)
  {
    Next(Act(idleTTL, s, ev))
  }

  function Next(s: State): State {
    s.(step := s.step + 1)
  }

  /** Steps of GetOrDial's callers and of Hold. */
  predicate Uses(ev: Event) {
    || ev.Tick? || ev.Begin? || ev.LookupStep? || ev.JoinStep? || ev.WaitStep?
    || ev.HoldStep? || ev.ReleaseStore? || ev.ReleaseLower?
  }

  /** Steps of a shared dial. */
  predicate Flies(ev: Event) {
    ev.FlightCheck? || ev.DialOk? || ev.DialFail? || ev.FlightInsert? || ev.FlightDiscard? || ev.FlightEnd?
  }

  /** One step; the remaining events drop, evict and close. */
  function Act(idleTTL: int, s: State, ev: Event): State
    requires Enabled(s, ev)
  {
    if Uses(ev) then Use(s, ev) else if Flies(ev) then Fly(s, ev) else Discard(idleTTL, s, ev)
  }

  function Use(s: State, ev: Event): State
    requires Uses(ev) && Enabled(s, ev)
  {
    match ev
    case Tick(d) => s.(now := s.now + d)
    case Begin(a, pc) => Move(s, a, pc)
    case LookupStep(a) => Lookup(s, a)
    case JoinStep(a) => Join(s, a)
    case WaitStep(a) => Move(s, a, Done)
    case HoldStep(a) =>
      var key := At(s, a).key;
      if key in s.entries then
        var i := s.entries[key];
        Move(SetEntry(s, i, s.heap[i].(holds := s.heap[i].holds + 1)), a, Holding(i))
      else Move(s, a, Done)
    case ReleaseStore(a) =>
      var i := At(s, a).e;
      Move(SetEntry(s, i, s.heap[i].(lastUsed := s.now, releasedAt := s.now)), a, Releasing(i))
    case ReleaseLower(a) =>
      var i := At(s, a).e;
      Move(SetEntry(s, i, s.heap[i].(holds := s.heap[i].holds - 1)), a, Done)
  }

  function Discard(idleTTL: int, s: State, ev: Event): State
    requires !Uses(ev) && !Flies(ev) && Enabled(s, ev)
  {
    Move(DiscardShared(s, ev), ev.a, DiscardPc(idleTTL, s, ev))
  }

  /** What such a step does to the shared state ... */
  function DiscardShared(s: State, ev: Event): State
    requires !Uses(ev) && !Flies(ev) && Enabled(s, ev)
  {
    match ev
    case DropStep(a) => Take(s, a, DropIds(s, At(s, a).key))
    case DropAssetStep(a) =>
      var asset := At(s, a).asset;
      Take(s, a, CachedOf(s, asset)).(dropGen := s.dropGen[asset := DropGen(s, asset) + 1],
                                      lastDrop := s.lastDrop[asset := s.step],
                                      invalidations := s.invalidations + [OfAsset(asset, s.step)])
    case CloseStep(a) => Take(s, a, CachedIds(s)).(closeGen := s.closeGen + 1, lastClose := s.step,
                                               invalidations := s.invalidations + [OfAll(s.step)])
    case EvictBegin(_) => s.(locked := true)
    case EvictUsed(a) =>
      var i := s.entries[At(s, a).key];
      if s.heap[i].lastUsed < At(s, a).threshold then Take(s, a, {i}) else s
    case EvictEnd(_) => s.(locked := false)
    case DrainClose(_, i) => SetEntry(s, i, CloseEntry(s.heap[i]))
    case EvictHolds(_, _) => s
    case DrainDone(_) => s
  }

  /** ... and where it leaves its actor. */
  function DiscardPc(idleTTL: int, s: State, ev: Event): Pc
    requires !Uses(ev) && !Flies(ev) && Enabled(s, ev)
  {
    var p := At(s, ev.a);
    match ev
    case DropStep(_) => Drain(DropIds(s, p.key))
    case DropAssetStep(_) => Drain(CachedOf(s, p.asset))
    case CloseStep(_) => Drain(CachedIds(s))
    case EvictBegin(_) => Evict(p.tick - idleTTL, s.entries.Keys, {})
    case EvictHolds(_, key) =>
      if s.heap[s.entries[key]].holds == 0
      then EvictRead(p.threshold, p.todo - {key}, p.stale, key)
      else Evict(p.threshold, p.todo - {key}, p.stale)
    case EvictUsed(_) =>
      var i := s.entries[p.key];
      Evict(p.threshold, p.todo, if s.heap[i].lastUsed < p.threshold then p.stale + {i} else p.stale)
    case EvictEnd(_) => Drain(p.stale)
    case DrainClose(_, i) => Drain(p.close - {i})
    case DrainDone(_) => Done
  }

  /** The entry Drop removes, if any. */
  function DropIds(s: State, key: Key): set<nat> {
    if key in s.entries then {s.entries[key]} else {}
  }

  function Fly(s: State, ev: Event): State
    requires Flies(ev) && Enabled(s, ev)
  {
    match ev
    case FlightCheck(f) =>
      var key := s.flights[f].key;
      if key in s.entries then
        var i := s.entries[key];
        SetFlight(SetEntry(s, i, s.heap[i].(lastUsed := s.now)), f, FReturn(Client(i), s.step))
      else SetFlight(s, f, FDial(s.step))
    case DialOk(f) =>
      var fl := s.flights[f];
      var e := Entry(fl.key, s.now, 0, 0, fl.pc.since, s.now, WithFlight(f));
      SetFlight(s.(heap := s.heap + [e]), f, FInsert(|s.heap|))
    case DialFail(f) => SetFlight(s, f, FReturn(Failed, s.step))
    case FlightInsert(f) => Insert(s, f)
    case FlightDiscard(f) =>
      var i := s.flights[f].pc.e;
      SetFlight(SetEntry(s, i, CloseEntry(s.heap[i])), f, FReturn(Invalidated, s.step))
    case FlightEnd(f) =>
      SetFlight(s.(running := s.running - {s.flights[f].key}), f, FDone(s.flights[f].pc.r, s.flights[f].pc.at))
  }

  function CloseEntry(e: Entry): Entry {
    e.(closes := e.closes + 1, place := Closed)
  }

  /** The locked start of GetOrDial: a hit is touched, a miss reads the generation. */
  function Lookup(s: State, a: nat): State
    requires At(s, a).GetLookup? && (At(s, a).key in s.entries ==> s.entries[At(s, a).key] < |s.heap|)
  {
    var key := At(s, a).key;
    if key in s.entries then
      var i := s.entries[key];
      Move(SetEntry(s, i, s.heap[i].(lastUsed := s.now)), a, Done)
    else Move(s, a, GetJoin(key, Gen(s, key.asset), s.step))
  }

  function Join(s: State, a: nat): State
    requires At(s, a).GetJoin?
  {
    var p := At(s, a);
    if p.key in s.running then Move(s, a, GetWait(p.key, s.running[p.key]))
    else
      Move(s.(running := s.running[p.key := |s.flights|],
              flights := s.flights + [Flight(p.key, p.gen, p.seen, FCheck)]),
           a, GetWait(p.key, |s.flights|))
  }

  /** The locked end of a dial: into the cache, unless the asset was invalidated meanwhile. */
  function Insert(s: State, f: nat): State
    requires FlightAt(s, f) && s.flights[f].pc.FInsert? && s.flights[f].pc.e < |s.heap|
  {
    var fl := s.flights[f];
    var i := fl.pc.e;
    if Gen(s, fl.key.asset) != fl.gen then SetFlight(s, f, FDiscard(i))
    else
      SetFlight(SetEntry(s, i, s.heap[i].(place := Cached)).(entries := s.entries[fl.key := i]),
                f, FReturn(Client(i), s.step))
  }

  ghost predicate Run(idleTTL: int, s: State, evs: seq<Event>, t: State)
    decreases |evs|
  {
    if evs == [] then s == t
    else Enabled(s, evs[0]) && Run(idleTTL, Apply(idleTTL, s, evs[0]), evs[1..], t)
  }
}
