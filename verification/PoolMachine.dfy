/** The SSH connection pool and its borrowers as a state machine: one event is one
    critical section of internal/sshpool/pool.go (or one step of
    internal/connpool/tunnel.go between two of them), and every actor carries its own
    program counter. Any interleaving of events is a run. */
module PoolMachine {
  import opened PoolEntries

  /** How a shared dial ended. `abandoned`: its initiator's context ended. */
  datatype DialResult = Got(e: nat) | Failed(abandoned: bool)

  /** One singleflight call of dialShared. */
  datatype FlightPc =
    | FCheck               // about to look the asset up again
    | FJudge(e: nat)       // found an entry, about to read its closed flag
    | FDial                // dialing
    | FPublish(e: nat)     // dialed, about to put the entry into the map
    | FReturn(r: DialResult) // returned, still registered under its key
    | FDone(r: DialResult)

  datatype Flight = Flight(asset: int, pc: FlightPc)

  /** What an actor does once the entries it has to close are closed. */
  datatype After = End | ThenLookup(asset: int, last: bool) | ThenJoin(asset: int, last: bool)

  /** `last` marks the second and last attempt of SSHTunnel.DialAddr. */
  datatype Pc =
    | Done
    | GetLookup(asset: int, last: bool)
    | GetJudge(asset: int, last: bool, e: nat)    // probe: about to read the closed flag
    | GetPing(asset: int, last: bool, e: nat)     // probe: waiting for the reply
    | GetAcquire(asset: int, last: bool, e: nat)  // probe said alive
    | GetUnmap(asset: int, last: bool, e: nat)    // probe said dead: removeEntry
    | GetJoin(asset: int, last: bool)             // about to enter dialShared
    | GetWait(asset: int, last: bool, f: nat)
    | GetTake(asset: int, last: bool, e: nat)     // dialShared returned e
    | Borrowed(asset: int, last: bool, e: nat)    // Get returned; opening the channel
    | Tunnel(asset: int, e: nat)                  // an open tunnelConn
    | RelLookup(asset: int, e: nat)               // Release of the borrow of e
    | RelHit(asset: int, e: nat, hit: nat)        // Release found `hit` in the map
    | Drain(retire: set<nat>, close: set<nat>, after: After)
    | RemoveAt(asset: int)
    | Sweep(todo: set<nat>, idle: set<nat>)       // cleanupIdle
  {
    /** Entries this actor has taken out of the map and has still to retire. */
    function ToRetire(): set<nat> {
      match this
      case Drain(retire, _, _) => retire
      case _ => {}
    }

    /** Retired entries whose connection this actor has still to close. */
    function ToClose(): set<nat> {
      match this
      case Drain(_, close, _) => close
      case Sweep(_, idle) => idle
      case _ => {}
    }

    /** The actor holds one reference on entry i. */
    predicate Borrows(i: nat) {
      (Borrowed? || Tunnel? || RelLookup? || RelHit?) && e == i
    }
  }

  /** entries is Pool.entries; heap holds every entry ever dialed, by identity;
      running is the singleflight group; published and refusals are history only. */
  datatype State = State(
    now: int,
    entries: map<int, nat>,
    heap: seq<Entry>,
    published: set<nat>,
    running: map<int, nat>,
    flights: seq<Flight>,
    actors: map<nat, Pc>,
    refusals: seq<Refusal>)

  /** A retirement by ReleaseRefused of an entry that was live. */
  datatype Refusal = Refusal(asset: int, at: int)

  datatype Config = Config(idleTime: int, redialInterval: int)

  datatype PingReply = Alive | Dead | CallerGone
  datatype ChannelReply = Opened | OpenFailed | Prohibited

  datatype Event =
    | Tick(d: nat)
    | BeginGet(a: nat, asset: int)
    | BeginRemove(a: nat, asset: int)
    | BeginSweep(a: nat)
    | BeginClose(a: nat)
    | LookupStep(a: nat)
    | JudgeStep(a: nat)
    | PingStep(a: nat, ping: PingReply)
    | AcquireStep(a: nat)
    | UnmapStep(a: nat)
    | JoinStep(a: nat)
    | WaitStep(a: nat, callerGone: bool)
    | WaitCancel(a: nat)
    | TakeStep(a: nat)
    | ChannelStep(a: nat, reply: ChannelReply)
    | TunnelCloseStep(a: nat)
    | RelLookupStep(a: nat)
    | RelHitStep(a: nat)
    | RemoveStep(a: nat)
    | SweepOne(a: nat, i: nat)
    | SweepUnmap(a: nat)
    | DrainRetire(a: nat, i: nat)
    | DrainClose(a: nat, i: nat)
    | DrainDone(a: nat)
    | FlightCheck(f: nat)
    | FlightJudge(f: nat)
    | DialOk(f: nat)
    | DialFail(f: nat, abandoned: bool)
    | FlightPublish(f: nat)
    | FlightEnd(f: nat)

  /** The steps of Get. */
  predicate Getting(ev: Event) {
    || ev.BeginGet? || ev.LookupStep? || ev.JudgeStep? || ev.PingStep? || ev.AcquireStep? || ev.UnmapStep?
    || ev.JoinStep? || ev.WaitStep? || ev.WaitCancel? || ev.TakeStep?
  }

  /** Events of the environment: no actor moves. */
  predicate Environment(ev: Event) {
    ev.Tick? || ev.FlightCheck? || ev.FlightJudge? || ev.DialOk? || ev.DialFail? || ev.FlightPublish? || ev.FlightEnd?
  }

  function Init(): State {
    State(0, map[], [], {}, map[], [], map[], [])
  }

  function At(s: State, a: nat): Pc {
    if a in s.actors then s.actors[a] else Done
  }

  function Move(s: State, a: nat, pc: Pc): State {
    s.(actors := s.actors[a := pc])
  }

  function SetEntry(s: State, i: nat, e: Entry): State
    requires i < |s.heap|
  {
    s.(heap := s.heap[i := e])
  }

  function Unmap(s: State, asset: int): State {
    s.(entries := s.entries - {asset})
  }

  /** delete(p.entries, asset) when the map still holds entry i there. */
  function UnmapIf(s: State, asset: int, i: nat): State {
    if asset in s.entries && s.entries[asset] == i then Unmap(s, asset) else s
  }

  /** Pool.snapshot: the entries the map holds. */
  function Snapshot(s: State): set<nat> {
    set k | k in s.entries :: s.entries[k]
  }

  function SetFlight(s: State, f: nat, pc: FlightPc): State
    requires f < |s.flights|
  {
    s.(flights := s.flights[f := s.flights[f].(pc := pc)])
  }

  function Continue(after: After): Pc {
    match after
    case End => Done
    case ThenLookup(asset, last) => GetLookup(asset, last)
    case ThenJoin(asset, last) => GetJoin(asset, last)
  }

  /** After a refusal that dropped the connection, DialAddr tries once more. */
  function Redial(asset: int, last: bool): After {
    if last then End else ThenLookup(asset, true)
  }

  predicate Enabled(s: State, ev: Event) {
    match ev
    case Tick(_) => true
    case BeginGet(a, _) => At(s, a).Done?
    case BeginRemove(a, _) => At(s, a).Done?
    case BeginSweep(a) => At(s, a).Done?
    case BeginClose(a) => At(s, a).Done?
    case LookupStep(a) => At(s, a).GetLookup?
    case JudgeStep(a) => At(s, a).GetJudge? && At(s, a).e < |s.heap|
    case PingStep(a, _) => At(s, a).GetPing?
    case AcquireStep(a) => At(s, a).GetAcquire? && At(s, a).e < |s.heap|
    case UnmapStep(a) => At(s, a).GetUnmap?
    case JoinStep(a) => At(s, a).GetJoin?
    case WaitStep(a, _) =>
      At(s, a).GetWait? && At(s, a).f < |s.flights| && s.flights[At(s, a).f].pc.FDone?
    case WaitCancel(a) => At(s, a).GetWait?
    case TakeStep(a) => At(s, a).GetTake? && At(s, a).e < |s.heap|
    case ChannelStep(a, _) => At(s, a).Borrowed? && At(s, a).e < |s.heap|
    case TunnelCloseStep(a) => At(s, a).Tunnel?
    case RelLookupStep(a) => At(s, a).RelLookup?
    case RelHitStep(a) => At(s, a).RelHit? && At(s, a).hit < |s.heap|
    case RemoveStep(a) => At(s, a).RemoveAt?
    case SweepOne(a, i) => At(s, a).Sweep? && i in At(s, a).todo && i < |s.heap|
    case SweepUnmap(a) => At(s, a).Sweep? && At(s, a).todo == {}
    case DrainRetire(a, i) => At(s, a).Drain? && i in At(s, a).retire && i < |s.heap|
    case DrainClose(a, i) => At(s, a).Drain? && i in At(s, a).close && i < |s.heap|
    case DrainDone(a) => At(s, a).Drain? && At(s, a).retire == {} && At(s, a).close == {}
    case FlightCheck(f) => f < |s.flights| && s.flights[f].pc.FCheck?
    case FlightJudge(f) => f < |s.flights| && s.flights[f].pc.FJudge? && s.flights[f].pc.e < |s.heap|
    case DialOk(f) => f < |s.flights| && s.flights[f].pc.FDial?
    case DialFail(f, _) => f < |s.flights| && s.flights[f].pc.FDial?
    case FlightPublish(f) => f < |s.flights| && s.flights[f].pc.FPublish?
    case FlightEnd(f) => f < |s.flights| && s.flights[f].pc.FReturn?
  }

  function Apply(c: Config, s: State, ev: Event): State
    requires Enabled(s, ev)
  {
    match ev
    case Tick(d) => s.(now := s.now + d)
    case BeginGet(a, asset) => Move(s, a, GetLookup(asset, false))
    case BeginRemove(a, asset) => Move(s, a, RemoveAt(asset))
    case BeginSweep(a) => Move(s, a, Sweep(Snapshot(s), {}))
    case BeginClose(a) => Move(s.(entries := map[]), a, Drain(Snapshot(s), {}, End))
    case LookupStep(a) => Lookup(s, a)
    case JudgeStep(a) =>
      var p := At(s, a);
      Move(s, a, if s.heap[p.e].closed then GetUnmap(p.asset, p.last, p.e) else GetPing(p.asset, p.last, p.e))
    case PingStep(a, ping) =>
      var p := At(s, a);
      Move(s, a, match ping
                 case Alive => GetAcquire(p.asset, p.last, p.e)
                 case Dead => GetUnmap(p.asset, p.last, p.e)
                 case CallerGone => Done)
    case AcquireStep(a) =>
      var p := At(s, a);
      if s.heap[p.e].closed then Move(s, a, GetJoin(p.asset, p.last))
      else Move(SetEntry(s, p.e, s.heap[p.e].Acquired(s.now)), a, Borrowed(p.asset, p.last, p.e))
    case UnmapStep(a) =>
      var p := At(s, a);
      Move(UnmapIf(s, p.asset, p.e), a, Drain({p.e}, {}, ThenJoin(p.asset, p.last)))
    case JoinStep(a) => Join(s, a)
    case WaitStep(a, callerGone) =>
      var p := At(s, a);
      Move(s, a, match s.flights[p.f].pc.r
                 case Got(e) => GetTake(p.asset, p.last, e)
                 case Failed(abandoned) =>
                   if abandoned && !callerGone then GetLookup(p.asset, p.last) else Done)
    case WaitCancel(a) => Move(s, a, Done)
    case TakeStep(a) =>
      var p := At(s, a);
      if s.heap[p.e].closed then Move(s, a, GetLookup(p.asset, p.last))
      else Move(SetEntry(s, p.e, s.heap[p.e].Acquired(s.now)), a, Borrowed(p.asset, p.last, p.e))
    case ChannelStep(a, reply) =>
      var p := At(s, a);
      (match reply
       case Opened => Move(s, a, Tunnel(p.asset, p.e))
       case OpenFailed => Move(s, a, RelLookup(p.asset, p.e))
       case Prohibited => Refuse(c, s, a))
    case TunnelCloseStep(a) => Move(s, a, RelLookup(At(s, a).asset, At(s, a).e))
    case RelLookupStep(a) =>
      var p := At(s, a);
      Move(s, a, if p.asset in s.entries then RelHit(p.asset, p.e, s.entries[p.asset]) else Done)
    case RelHitStep(a) =>
      var p := At(s, a);
      Move(SetEntry(s, p.hit, s.heap[p.hit].Released(s.now)), a, Done)
    case RemoveStep(a) =>
      var p := At(s, a);
      if p.asset in s.entries
      then Move(Unmap(s, p.asset), a, Drain({s.entries[p.asset]}, {}, End))
      else Move(s, a, Done)
    case SweepOne(a, i) => SweepEntry(c, s, a, i)
    case SweepUnmap(a) =>
      var idle := At(s, a).idle;
      Move(s.(entries := map k | k in s.entries && s.entries[k] !in idle :: s.entries[k]), a, Drain({}, idle, End))
    case DrainRetire(a, i) =>
      var p := At(s, a);
      Move(SetEntry(s, i, s.heap[i].Retired()), a, Drain(p.retire - {i}, p.close + {i}, p.after))
    case DrainClose(a, i) =>
      var p := At(s, a);
      Move(SetEntry(s, i, s.heap[i].ConnClosed()), a, Drain(p.retire, p.close - {i}, p.after))
    case DrainDone(a) => Move(s, a, Continue(At(s, a).after))
    case FlightCheck(f) =>
      var asset := s.flights[f].asset;
      SetFlight(s, f, if asset in s.entries then FJudge(s.entries[asset]) else FDial)
    case FlightJudge(f) =>
      var e := s.flights[f].pc.e;
      SetFlight(s, f, if s.heap[e].closed then FDial else FReturn(Got(e)))
    case DialOk(f) =>
      SetFlight(s.(heap := s.heap + [Dialed(s.flights[f].asset, s.now)]), f, FPublish(|s.heap|))
    case DialFail(f, abandoned) => SetFlight(s, f, FReturn(Failed(abandoned)))
    case FlightPublish(f) =>
      var e := s.flights[f].pc.e;
      SetFlight(s.(entries := s.entries[s.flights[f].asset := e], published := s.published + {e}), f, FReturn(Got(e)))
    case FlightEnd(f) =>
      SetFlight(s.(running := s.running - {s.flights[f].asset}), f, FDone(s.flights[f].pc.r))
  }

  function Lookup(s: State, a: nat): State
    requires At(s, a).GetLookup?
  {
    var p := At(s, a);
    Move(s, a, if p.asset in s.entries then GetJudge(p.asset, p.last, s.entries[p.asset]) else GetJoin(p.asset, p.last))
  }

  /** singleflight: join the running call of the key or start one. */
  function Join(s: State, a: nat): State
    requires At(s, a).GetJoin?
  {
    var p := At(s, a);
    if p.asset in s.running then
      Move(s, a, GetWait(p.asset, p.last, s.running[p.asset]))
    else
      Move(s.(running := s.running[p.asset := |s.flights|], flights := s.flights + [Flight(p.asset, FCheck)]),
           a, GetWait(p.asset, p.last, |s.flights|))
  }

  /** ReleaseRefused: the whole decision is one critical section of the pool's mutex. */
  function Refuse(c: Config, s: State, a: nat): State
    requires At(s, a).Borrowed? && At(s, a).e < |s.heap|
  {
    var p := At(s, a);
    if p.asset !in s.entries || s.entries[p.asset] != p.e then
      Move(s, a, Continue(Redial(p.asset, p.last)))
    else
      var s' := SetEntry(s, p.e, s.heap[p.e].Refused(s.now, c.redialInterval));
      if s.heap[p.e].RefusalRetires(s.now, c.redialInterval) then
        Move(Unmap(s', p.asset).(refusals := if s.heap[p.e].closed then s.refusals
                                             else s.refusals + [Refusal(p.asset, s.now)]),
             a, Drain({}, {p.e}, Redial(p.asset, p.last)))
      else
        Move(s', a, Done)
  }

  /** retireIfIdle on one entry of the snapshot. */
  function SweepEntry(c: Config, s: State, a: nat, i: nat): State
    requires At(s, a).Sweep? && i < |s.heap|
  {
    var p := At(s, a);
    if s.heap[i].IdleExpired(s.now, c.idleTime) then
      Move(SetEntry(s, i, s.heap[i].Retired()), a, Sweep(p.todo - {i}, p.idle + {i}))
    else
      Move(s, a, Sweep(p.todo - {i}, p.idle))
  }

  /** t is reached from s by the events evs, each enabled when it happens. */
  ghost predicate Run(c: Config, s: State, evs: seq<Event>, t: State)
    decreases |evs|
  {
    if evs == [] then s == t
    else Enabled(s, evs[0]) && Run(c, Apply(c, s, evs[0]), evs[1..], t)
  }
}
