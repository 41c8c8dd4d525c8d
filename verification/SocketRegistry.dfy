/** The registry of live sockets as a machine of interleaved threads: connection handlers, heartbeats,
    deliveries, disconnections and shutdowns. A session is known by the thread that handles it. The last
    action under a lock and the release of the lock are one step. */
module SocketRegistry {
  import opened Basics

  datatype Stage =
    | Upgrading | Refused
    | Registering | Evicting | Inserting
    | Reading | Closing
    | Deregistering | Removing
    | Draining

  datatype Beat = Ticking | WantsPing | Pinging | Broken

  datatype Delivery =
    | WantsLookup | LookingUp
    | WantsSend(s: nat) | Sending(s: nat) | SendFailed(s: nat)
    | WantsDrop(s: nat) | Dropping(s: nat) | Unlocking(s: nat)

  datatype Disconnection = WantsDisconnect | Disconnecting | Deleting

  datatype Stopping =
    | WantsCollect
    | Collecting(found: seq<nat>)
    | HangingUp(rest: seq<nat>)
    | Greeting(greeted: nat, rest: seq<nat>)
    | Greeted(greeted: nat, rest: seq<nat>)

  datatype Thread =
    | Handler(device: Name, stage: Stage)
    | Heartbeat(session: nat, beat: Beat)
    | Deliverer(device: Name, delivery: Delivery)
    | Disconnector(device: Name, disconnection: Disconnection)
    | Shutdown(stopping: Stopping)
    | Finished

  datatype State = State(
    cap: nat,
    tokens: nat,
    registry: map<Name, nat>,
    writer: Option<nat>,
    readers: set<nat>,
    mutexes: map<nat, nat>,
    closed: set<nat>,
    stopped: set<nat>,
    threads: map<nat, Thread>,
    nextId: nat)
  {
    function With(t: nat, th: Thread): State {
      this.(threads := threads[t := th])
    }

    function Spawn(th: Thread): State {
      this.(threads := threads[nextId := th], nextId := nextId + 1)
    }

    predicate RegistryFree() {
      writer.None? && readers == {}
    }
  }

  /** The state in which the manager starts. */
  function Start(cap: nat): State {
    State(cap, 0, map[], None, {}, map[], {}, {}, map[], 0)
  }

  /** A call arrives, or a thread takes its next action. `ok` decides what the network decides (an upgrade
      or a write succeeds, the ticker fires before the stop signal), `pick` the next key of an iteration
      over the registry. */
  datatype Event =
    | Connect(device: Name)
    | Deliver(device: Name)
    | Disconnect(device: Name)
    | Stop
    | Go(t: nat, ok: bool, pick: Name)

  /** Delete the entry, but only if it is still this session's. */
  function RemoveIf<T(==)>(registry: map<Name, T>, device: Name, s: T): map<Name, T> {
    if device in registry && registry[device] == s then registry - {device} else registry
  }

  function Evicted(st: State, device: Name): set<nat> {
    if device in st.registry then {st.registry[device]} else {}
  }

  function HandlerStep(st: State, t: nat, device: Name, stage: Stage, ok: bool): Option<State> {
    match stage
    case Upgrading => Some(st.With(t, Handler(device, if ok then Registering else Refused)))
    case Registering => if st.RegistryFree() then Some(st.(writer := Some(t)).With(t, Handler(device, Evicting))) else None
    case Evicting => Some(st.(closed := st.closed + Evicted(st, device)).With(t, Handler(device, Inserting)))
    case Inserting =>
      Some(st.(registry := st.registry[device := t], writer := None).With(t, Handler(device, Reading)).Spawn(Heartbeat(t, Ticking)))
    case Reading => Some(st.With(t, Handler(device, Closing)))
    case Closing =>
      Some(st.(stopped := st.stopped + {t}, closed := st.closed + {t}).With(t, Handler(device, Deregistering)))
    case Deregistering => if st.RegistryFree() then Some(st.(writer := Some(t)).With(t, Handler(device, Removing))) else None
    case Removing => Some(st.(registry := RemoveIf(st.registry, device, t), writer := None).With(t, Handler(device, Draining)))
    case _ => if st.tokens == 0 then None else Some(st.(tokens := st.tokens - 1).With(t, Finished))
  }

  function HeartbeatStep(st: State, t: nat, s: nat, beat: Beat, ok: bool): Option<State> {
    match beat
    case Ticking =>
      if ok then Some(st.With(t, Heartbeat(s, WantsPing)))
      else if s in st.stopped then Some(st.With(t, Finished)) else None
    case WantsPing => if s !in st.mutexes then Some(st.(mutexes := st.mutexes[s := t]).With(t, Heartbeat(s, Pinging))) else None
    case Pinging => Some(st.(mutexes := st.mutexes - {s}).With(t, Heartbeat(s, if ok then Ticking else Broken)))
    case Broken => Some(st.(closed := st.closed + {s}).With(t, Finished))
  }

  function DeliveryStep(st: State, t: nat, device: Name, delivery: Delivery, ok: bool): Option<State> {
    match delivery
    case WantsLookup => if st.writer.None? then Some(st.(readers := st.readers + {t}).With(t, Deliverer(device, LookingUp))) else None
    case LookingUp =>
      Some(st.(readers := st.readers - {t})
             .With(t, if device in st.registry then Deliverer(device, WantsSend(st.registry[device])) else Finished))
    case WantsSend(s) => if s !in st.mutexes then Some(st.(mutexes := st.mutexes[s := t]).With(t, Deliverer(device, Sending(s)))) else None
    case Sending(s) => Some(st.With(t, Deliverer(device, if ok then Unlocking(s) else SendFailed(s))))
    case SendFailed(s) => Some(st.(closed := st.closed + {s}).With(t, Deliverer(device, WantsDrop(s))))
    case WantsDrop(s) => if st.RegistryFree() then Some(st.(writer := Some(t)).With(t, Deliverer(device, Dropping(s)))) else None
    case Dropping(s) => Some(st.(registry := RemoveIf(st.registry, device, s), writer := None).With(t, Deliverer(device, Unlocking(s))))
    case Unlocking(s) => Some(st.(mutexes := st.mutexes - {s}).With(t, Finished))
  }

  function DisconnectStep(st: State, t: nat, device: Name, stage: Disconnection): Option<State> {
    match stage
    case WantsDisconnect => if st.RegistryFree() then Some(st.(writer := Some(t)).With(t, Disconnector(device, Disconnecting))) else None
    case Disconnecting => Some(st.(closed := st.closed + Evicted(st, device)).With(t, Disconnector(device, Deleting)))
    case Deleting => Some(st.(registry := st.registry - {device}, writer := None).With(t, Finished))
  }

  function ShutdownStep(st: State, t: nat, stage: Stopping, pick: Name): Option<State> {
    match stage
    case WantsCollect => if st.RegistryFree() then Some(st.(writer := Some(t)).With(t, Shutdown(Collecting([])))) else None
    case Collecting(found) =>
      if st.registry == map[] then Some(st.(writer := None).With(t, Shutdown(HangingUp(found))))
      else if pick in st.registry then
        Some(st.(registry := st.registry - {pick}).With(t, Shutdown(Collecting(found + [st.registry[pick]]))))
      else None
    case HangingUp(rest) =>
      if rest == [] then Some(st.With(t, Finished))
      else if rest[0] !in st.mutexes then
        Some(st.(mutexes := st.mutexes[rest[0] := t]).With(t, Shutdown(Greeting(rest[0], rest[1..]))))
      else None
    case Greeting(s, rest) => Some(st.(mutexes := st.mutexes - {s}).With(t, Shutdown(Greeted(s, rest))))
    case Greeted(s, rest) => Some(st.(closed := st.closed + {s}).With(t, Shutdown(HangingUp(rest))))
  }

  function ThreadStep(st: State, t: nat, ok: bool, pick: Name): Option<State>
    requires t in st.threads
  {
    match st.threads[t]
    case Handler(device, stage) => HandlerStep(st, t, device, stage, ok)
    case Heartbeat(s, beat) => HeartbeatStep(st, t, s, beat, ok)
    case Deliverer(device, delivery) => DeliveryStep(st, t, device, delivery, ok)
    case Disconnector(device, stage) => DisconnectStep(st, t, device, stage)
    case Shutdown(stage) => ShutdownStep(st, t, stage, pick)
    case Finished => None
  }

  /** None: the event cannot happen now (the thread is blocked or gone). */
  function Next(st: State, ev: Event): Option<State> {
    match ev
    case Connect(device) =>
      // at the cap the connection is turned away and nothing changes
      if st.tokens < st.cap then Some(st.(tokens := st.tokens + 1).Spawn(Handler(device, Upgrading))) else Some(st)
    case Deliver(device) => Some(st.Spawn(Deliverer(device, WantsLookup)))
    case Disconnect(device) => Some(st.Spawn(Disconnector(device, WantsDisconnect)))
    case Stop => Some(st.Spawn(Shutdown(WantsCollect)))
    case Go(t, ok, pick) => if t in st.threads then ThreadStep(st, t, ok, pick) else None
  }

  function Step(st: State, ev: Event): State {
    var next := Next(st, ev);
    if next.Some? then next.value else st
  }

  function Run(st: State, evs: seq<Event>): State
    decreases |evs|
  {
    if evs == [] then st else Step(Run(st, evs[..|evs| - 1]), evs[|evs| - 1])
  }

  // ----- What a thread holds and waits for -----

  predicate HoldsWrite(th: Thread) {
    match th
    case Handler(_, stage) => stage.Evicting? || stage.Inserting? || stage.Removing?
    case Deliverer(_, d) => d.Dropping?
    case Disconnector(_, d) => !d.WantsDisconnect?
    case Shutdown(s) => s.Collecting?
    case _ => false
  }

  predicate HoldsRead(th: Thread) {
    th.Deliverer? && th.delivery.LookingUp?
  }

  function HeldMutex(th: Thread): Option<nat> {
    match th
    case Heartbeat(s, beat) => if beat.Pinging? then Some(s) else None
    case Deliverer(_, d) =>
      if d.WantsLookup? || d.LookingUp? || d.WantsSend? then None else Some(d.s)
    case Shutdown(s) => if s.Greeting? then Some(s.greeted) else None
    case _ => None
  }

  datatype Lock = RegistryWrite | RegistryRead | Mutex(session: nat)

  function Wants(th: Thread): Option<Lock> {
    match th
    case Handler(_, stage) => if stage.Registering? || stage.Deregistering? then Some(RegistryWrite) else None
    case Heartbeat(s, beat) => if beat.WantsPing? then Some(Mutex(s)) else None
    case Deliverer(_, d) =>
      if d.WantsLookup? then Some(RegistryRead)
      else if d.WantsSend? then Some(Mutex(d.s))
      else if d.WantsDrop? then Some(RegistryWrite)
      else None
    case Disconnector(_, d) => if d.WantsDisconnect? then Some(RegistryWrite) else None
    case Shutdown(s) =>
      if s.WantsCollect? then Some(RegistryWrite)
      else if s.HangingUp? && s.rest != [] then Some(Mutex(s.rest[0]))
      else None
    case Finished => None
  }

  /** Sessions a shutdown has taken out of the registry and has yet to close. */
  function Pending(th: Thread): seq<nat> {
    if !th.Shutdown? then []
    else match th.stopping
      case WantsCollect => []
      case Collecting(found) => found
      case HangingUp(rest) => rest
      case Greeting(s, rest) => [s] + rest
      case Greeted(s, rest) => [s] + rest
  }
}
