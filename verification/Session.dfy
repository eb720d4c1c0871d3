/** The session manager as a state machine: one step per critical section of the manager's lock,
    and per channel operation of a gate goroutine. */
module Session {
  import opened Common

  datatype Policy = PolicyQueue | PolicyReject

  datatype Config = Config(roomID: string, policy: Policy, maxQueueDepth: int)

  datatype Claims = Claims(roomID: string, viewerID: string, sessionSeconds: int)

  /** One allocated session entry; `ticket` numbers the accepted claim it serves. Its context ends when it is
      cancelled, or by itself at the deadline of a granted session. */
  datatype Entry = Entry(claims: Claims, ticket: nat, cancelled: bool, expired: bool, gates: seq<nat>, gatesDone: bool) {
    function Viewer(): string { claims.viewerID }

    predicate ContextDone() { cancelled || expired }
  }

  /** Where a gate's goroutine is: waiting for a command, holding one, past the controller check, or gone. */
  datatype GatePc<C> = Waiting | Holding(cmd: C) | Decided(cmd: C, isActive: bool) | Exited

  const GATE_BUFFER := 8

  /** A gate handle; `closes` counts how often its channel was closed. */
  datatype Gate<C> = Gate(viewer: string, closed: bool, closes: nat, pc: GatePc<C>, out: seq<C>) {
    function Close(): Gate<C> {
      if closed then this else this.(closed := true, closes := closes + 1)
    }
  }

  datatype EndKind = Expired | IdleKicked

  datatype Event =
    | Granted(viewer: string, seconds: int)
    | Ended(viewer: string, kind: EndKind)
    | Queued(viewer: string, position: nat)
    | Tick(viewer: string)

  /** A command that left a gate, with the controller at that moment. */
  datatype Sent<C> = Sent(gate: nat, cmd: C, controller: Option<string>)

  /** What happened so far: events handed to emitEvent's channels, tickets in grant order,
      tickets released while waiting, and commands that left a gate. */
  datatype History<C> = History(events: seq<Event>, tickets: nat, grants: seq<nat>, released: set<nat>, sent: seq<Sent<C>>)

  /** An entry or gate pointer is its index in `entries` or `gates`, in order of allocation. */
  datatype State<C> = State(
    cfg: Config,
    active: Option<nat>,
    queue: seq<nat>,
    entries: seq<Entry>,
    gates: seq<Gate<C>>,
    stopped: bool,
    eventsClosed: bool,
    subscribers: set<nat>,
    closedSubscribers: set<nat>,
    hist: History<C>)
  {
    /** Pointers point into the tables. */
    ghost predicate Sound() {
      && (active.Some? ==> active.value < |entries|)
      && (forall i :: 0 <= i < |queue| ==> queue[i] < |entries|)
      && (forall e, i :: 0 <= e < |entries| && 0 <= i < |entries[e].gates| ==> entries[e].gates[i] < |gates|)
    }

    predicate Live(e: nat) { active == Some(e) || e in queue }

    function Controller(): Option<string>
      requires active.Some? ==> active.value < |entries|
    {
      if active.Some? then Some(entries[active.value].Viewer()) else None
    }
  }

  function Initial<C>(cfg: Config): State<C> {
    State(cfg, None, [], [], [], false, false, {}, {}, History([], 0, [], {}, []))
  }

  // ---- Building blocks (the caller holds the lock) -------------------------

  function FindIn(entries: seq<Entry>, queue: seq<nat>, viewer: string): (r: Option<nat>)
    requires forall i :: 0 <= i < |queue| ==> queue[i] < |entries|
    ensures r.Some? ==> r.value in queue && r.value < |entries| && entries[r.value].Viewer() == viewer
  {
    if queue == [] then None
    else if entries[queue[0]].Viewer() == viewer then Some(queue[0])
    else FindIn(entries, queue[1..], viewer)
  }

  /** The viewer's entry: the active one first, else the earliest in the queue. */
  function FindEntry<C>(s: State<C>, viewer: string): (r: Option<nat>)
    requires s.Sound()
    ensures r.Some? ==> s.Live(r.value) && r.value < |s.entries| && s.entries[r.value].Viewer() == viewer
  {
    if s.Controller() == Some(viewer) then s.active else FindIn(s.entries, s.queue, viewer)
  }

  function Emit<C>(s: State<C>, ev: Event): State<C> {
    if s.stopped then s else s.(hist := s.hist.(events := s.hist.events + [ev]))
  }

  function Closed<C>(gates: seq<Gate<C>>, ids: seq<nat>): (r: seq<Gate<C>>)
    ensures |r| == |gates|
    ensures forall g :: 0 <= g < |gates| ==> r[g] == if g in ids then gates[g].Close() else gates[g]
  {
    seq(|gates|, g requires 0 <= g < |gates| => if g in ids then gates[g].Close() else gates[g])
  }

  /** cancel() and closeGates() on one entry. */
  function Terminate<C>(s: State<C>, e: nat): (s': State<C>)
    requires e < |s.entries|
  {
    s.(entries := s.entries[e := s.entries[e].(cancelled := true, gatesDone := true, gates := [])],
       gates := Closed(s.gates, s.entries[e].gates))
  }

  function Start<C>(s: State<C>, claims: Claims, ticket: nat, gates: seq<nat>): State<C> {
    Emit(s.(active := Some(|s.entries|),
            entries := s.entries + [Entry(claims, ticket, false, false, gates, false)],
            hist := s.hist.(grants := s.hist.grants + [ticket])),
         Granted(claims.viewerID, claims.sessionSeconds))
  }

  // ---- Steps ---------------------------------------------------------------

  datatype ClaimResult = Session(entry: nat) | InvalidToken | RoomMismatch | ControllerActive | QueueFull

  /** `verified` is what ParseAndVerify made of the token. */
  function ClaimOutcome<C>(s: State<C>, verified: Option<Claims>): ClaimResult {
    if verified.None? then InvalidToken
    else if verified.value.roomID != s.cfg.roomID then RoomMismatch
    else if s.active.None? then Session(|s.entries|)
    else if s.cfg.policy == PolicyReject then ControllerActive
    else if s.cfg.maxQueueDepth > 0 && |s.queue| >= s.cfg.maxQueueDepth then QueueFull
    else Session(|s.entries|)
  }

  function Claim<C>(s: State<C>, verified: Option<Claims>): State<C> {
    if !ClaimOutcome(s, verified).Session? then s else
    var claims, ticket := verified.value, s.hist.tickets;
    var s1 := s.(hist := s.hist.(tickets := ticket + 1));
    if s.active.None? then Start(s1, claims, ticket, [])
    else
      Emit(s1.(entries := s.entries + [Entry(claims, ticket, false, false, [], false)],
               queue := s.queue + [|s.entries|]),
           Queued(claims.viewerID, |s.queue| + 1))
  }

  function Without(queue: seq<nat>, e: nat): (r: seq<nat>)
    ensures e !in queue ==> r == queue
    ensures forall x :: x in r ==> x in queue
  {
    if queue == [] then [] else if queue[0] == e then queue[1..] else [queue[0]] + Without(queue[1..], e)
  }

  /** Release's own critical section; for the active entry it ends with a call of endSession. */
  function Release<C>(s: State<C>, e: nat): State<C>
    requires e < |s.entries|
  {
    if s.active == Some(e) || e !in s.queue then s
    else Terminate(s.(queue := Without(s.queue, e),
                      hist := s.hist.(released := s.hist.released + {s.entries[e].ticket})), e)
  }

  /** The whole of Release: its critical section, then endSession if the entry was active. */
  function ReleaseCall<C>(s: State<C>, e: nat): State<C>
    requires s.Sound() && e < |s.entries|
  {
    if s.active == Some(e) then EndSession(s, e, Expired) else Release(s, e)
  }

  /** The deadline of the active entry's context passes; nobody holds the lock, and nothing else happens yet. */
  function Deadline<C>(s: State<C>, e: nat): State<C>
    requires s.Sound()
  {
    if s.active != Some(e) then s else s.(entries := s.entries[e := s.entries[e].(expired := true)])
  }

  /** Called by the watcher, the idle timer, Release and KickCurrentController alike. */
  function EndSession<C>(s: State<C>, e: nat, kind: EndKind): State<C>
    requires s.Sound()
  {
    if s.active != Some(e) then s else
    var s1 := Emit(Terminate(s, e).(active := None), Ended(s.entries[e].Viewer(), kind));
    if s.queue == [] then s1 else Promote(s1)
  }

  /** The head of the queue gets a fresh entry, which takes over its gates. */
  function Promote<C>(s: State<C>): State<C>
    requires |s.queue| > 0 && s.queue[0] < |s.entries|
  {
    var n := s.queue[0];
    var next := s.entries[n];
    Start(s.(queue := s.queue[1..],
             entries := s.entries[n := next.(cancelled := true, gates := [])]),
          next.claims, next.ticket, next.gates)
  }

  function OpenGate<C>(s: State<C>, viewer: string): State<C>
    requires s.Sound()
  {
    var found := FindEntry(s, viewer);
    var g := |s.gates|;
    if found.Some? && !s.entries[found.value].gatesDone then
      var e := found.value;
      s.(gates := s.gates + [Gate(viewer, false, 0, Waiting, [])],
         entries := s.entries[e := s.entries[e].(gates := s.entries[e].gates + [g])])
    else
      s.(gates := s.gates + [Gate(viewer, true, 1, Exited, [])])
  }

  function GateReceive<C>(s: State<C>, g: nat, cmd: C): State<C>
    requires g < |s.gates|
  {
    if s.gates[g].pc != Waiting then s else s.(gates := s.gates[g := s.gates[g].(pc := Holding(cmd))])
  }

  /** The locked read of m.active that decides whether to forward. */
  function GateCheck<C>(s: State<C>, g: nat): State<C>
    requires g < |s.gates| && s.Sound()
  {
    var gate := s.gates[g];
    if !gate.pc.Holding? then s
    else s.(gates := s.gates[g := gate.(pc := Decided(gate.pc.cmd, s.Controller() == Some(gate.viewer)))])
  }

  /** The non-blocking send under the handle's own lock. */
  function GateSend<C>(s: State<C>, g: nat): State<C>
    requires g < |s.gates| && s.Sound()
  {
    var gate := s.gates[g];
    if !gate.pc.Decided? then s
    else if gate.pc.isActive && !gate.closed && |gate.out| < GATE_BUFFER then
      s.(gates := s.gates[g := gate.(pc := Waiting, out := gate.out + [gate.pc.cmd])],
         hist := s.hist.(sent := s.hist.sent + [Sent(g, gate.pc.cmd, s.Controller())]))
    else s.(gates := s.gates[g := gate.(pc := Waiting)])
  }

  /** The consumer of a gate's channel receives a buffered command. */
  function GateTake<C>(s: State<C>, g: nat): State<C>
    requires g < |s.gates|
  {
    if s.gates[g].out == [] then s else s.(gates := s.gates[g := s.gates[g].(out := s.gates[g].out[1..])])
  }

  /** The goroutine returns: `done` was closed or the viewer's stream ended. */
  function GateExit<C>(s: State<C>, g: nat): State<C>
    requires g < |s.gates|
  {
    if s.gates[g].pc != Waiting then s else s.(gates := s.gates[g := s.gates[g].Close().(pc := Exited)])
  }

  function TerminateAll<C>(s: State<C>, es: seq<nat>): State<C>
    requires forall i :: 0 <= i < |es| ==> es[i] < |s.entries|
    decreases |es|
  {
    if es == [] then s else TerminateAll(Terminate(s, es[0]), es[1..])
  }

  /** Run's critical section after its context is done. */
  function Shutdown<C>(s: State<C>): State<C>
    requires s.Sound()
  {
    var live := (if s.active.Some? then [s.active.value] else []) + s.queue;
    TerminateAll(s.(stopped := true), live)
  }

  /** Run then closes the events channel. */
  function CloseEvents<C>(s: State<C>): State<C> { if s.stopped then s.(eventsClosed := true) else s }

  function Subscribe<C>(s: State<C>, ch: nat): State<C> {
    if ch in s.subscribers + s.closedSubscribers then s else s.(subscribers := s.subscribers + {ch})
  }

  function Unsubscribe<C>(s: State<C>, ch: nat): State<C> {
    if ch !in s.subscribers then s
    else s.(subscribers := s.subscribers - {ch}, closedSubscribers := s.closedSubscribers + {ch})
  }

  datatype Step<C> =
    | SClaim(verified: Option<Claims>)
    | SRelease(e: nat)
    | SEnd(e: nat, kind: EndKind)
    | SDeadline(e: nat)
    | SGate(viewer: string)
    | SReceive(g: nat, cmd: C)
    | SCheck(g: nat)
    | SSend(g: nat)
    | STake(g: nat)
    | SExit(g: nat)
    | STick(viewer: string)
    | SShutdown
    | SCloseEvents
    | SSubscribe(ch: nat)
    | SUnsubscribe(ch: nat)

  /** One atomic step of any thread; a step that is not enabled changes nothing. */
  function Next<C>(s: State<C>, step: Step<C>): State<C>
    requires s.Sound()
  {
    match step
    case SClaim(v) => Claim(s, v)
    case SRelease(e) => if e < |s.entries| then Release(s, e) else s
    case SEnd(e, kind) => EndSession(s, e, kind)
    case SDeadline(e) => Deadline(s, e)
    case SGate(v) => OpenGate(s, v)
    case SReceive(g, cmd) => if g < |s.gates| then GateReceive(s, g, cmd) else s
    case SCheck(g) => if g < |s.gates| then GateCheck(s, g) else s
    case SSend(g) => if g < |s.gates| then GateSend(s, g) else s
    case STake(g) => if g < |s.gates| then GateTake(s, g) else s
    case SExit(g) => if g < |s.gates| then GateExit(s, g) else s
    case STick(v) => Emit(s, Tick(v))
    case SShutdown => Shutdown(s)
    case SCloseEvents => CloseEvents(s)
    case SSubscribe(ch) => Subscribe(s, ch)
    case SUnsubscribe(ch) => Unsubscribe(s, ch)
  }
}
