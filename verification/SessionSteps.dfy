/** What the manager's steps amount to, said by their effects. */
module SessionSteps {
  import opened Common
  import opened Session
  import opened SessionInvariant
  import opened SessionTheorems

  // ---- Claim ---------------------------------------------------------------

  /** A token that verified, for this room, while nobody is in control or the queue takes one more. */
  predicate Acceptable<C>(s: State<C>, verified: Option<Claims>) {
    && verified.Some? && verified.value.roomID == s.cfg.roomID
    && (s.active.None?
        || (s.cfg.policy == PolicyQueue && (s.cfg.maxQueueDepth <= 0 || |s.queue| < s.cfg.maxQueueDepth)))
  }

  /** A claim changes something iff it is acceptable. It then adds one entry, which takes control if nobody has it and
      else the last place in the queue; nobody already there is moved. */
  lemma ClaimExact<C(!new)>(s: State<C>, verified: Option<Claims>)
    ensures Claim(s, verified) != s <==> Acceptable(s, verified)
    ensures Acceptable(s, verified) ==>
              var t, e := Claim(s, verified), |s.entries|;
              && |t.entries| == e + 1 && t.entries[..e] == s.entries
              && t.entries[e].claims == verified.value && !t.entries[e].ContextDone()
              && t.entries[e].gates == [] && !t.entries[e].gatesDone
              && (s.active.None? ==> t.active == Some(e) && t.queue == s.queue)
              && (s.active.Some? ==> t.active == s.active && t.queue == s.queue + [e])
              && t.gates == s.gates && t.stopped == s.stopped && t.hist.tickets == s.hist.tickets + 1
  {
    if Acceptable(s, verified) {
      assert Claim(s, verified).hist.tickets == s.hist.tickets + 1;
    }
  }

  /** Why a claim is refused, in the order of the checks; an accepted one names its entry. */
  lemma ClaimRefusals<C(!new)>(s: State<C>, verified: Option<Claims>)
    ensures var r := ClaimOutcome(s, verified);
            && (verified.None? <==> r == InvalidToken)
            && (verified.Some? && verified.value.roomID != s.cfg.roomID <==> r == RoomMismatch)
            && (r == ControllerActive <==>
                  verified.Some? && verified.value.roomID == s.cfg.roomID && s.active.Some? && s.cfg.policy == PolicyReject)
            && (r == QueueFull <==>
                  verified.Some? && verified.value.roomID == s.cfg.roomID && s.active.Some? && s.cfg.policy == PolicyQueue
                  && 0 < s.cfg.maxQueueDepth <= |s.queue|)
            && (Acceptable(s, verified) <==> r == ClaimResult.Session(|s.entries|))
  {
  }

  /** Every entry ever made is for this host's room. */
  ghost predicate OneRoom<C(!new)>(s: State<C>) {
    forall e :: 0 <= e < |s.entries| ==> s.entries[e].claims.roomID == s.cfg.roomID
  }

  /** Steps other than an accepted claim only copy claims they find. */
  lemma ClaimsCopied<C(!new)>(s: State<C>, step: Step<C>)
    requires Inv(s) && OneRoom(s)
    ensures Next(s, step).cfg == s.cfg && OneRoom(Next(s, step))
  {
    if step.SShutdown? {
      ShutdownEffect(s);
    } else if step.SClaim? {
      ClaimRoom(s, step.verified);
    } else if step.SEnd? {
      EndRoom(s, step.e, step.kind);
    } else if step.SRelease? {
      ReleaseRoom(s, step.e);
    } else if GateStep(step) {
      GateStepFrame(s, step);
    } else if step.SDeadline? || step.SGate? {
      OtherRoom(s, step);
    }
  }

  lemma ClaimRoom<C(!new)>(s: State<C>, verified: Option<Claims>)
    requires OneRoom(s)
    ensures Claim(s, verified).cfg == s.cfg && OneRoom(Claim(s, verified))
  {
    var t := Claim(s, verified);
    if Acceptable(s, verified) {
      ClaimExact(s, verified);
      assert forall e :: 0 <= e < |s.entries| ==> t.entries[..|s.entries|][e] == s.entries[e];
    } else {
      ClaimExact(s, verified);
    }
  }

  lemma EndRoom<C(!new)>(s: State<C>, e: nat, kind: EndKind)
    requires s.Sound() && OneRoom(s)
    ensures EndSession(s, e, kind).cfg == s.cfg && OneRoom(EndSession(s, e, kind))
  {
  }

  lemma ReleaseRoom<C(!new)>(s: State<C>, e: nat)
    requires s.Sound() && OneRoom(s)
    ensures e < |s.entries| ==> Release(s, e).cfg == s.cfg && OneRoom(Release(s, e))
  {
  }

  lemma OtherRoom<C(!new)>(s: State<C>, step: Step<C>)
    requires s.Sound() && OneRoom(s) && (step.SDeadline? || step.SGate?)
    ensures Next(s, step).cfg == s.cfg && OneRoom(Next(s, step))
  {
  }

  lemma {:induction false} RunRoom<C(!new)>(s: State<C>, steps: seq<Step<C>>)
    requires Inv(s) && OneRoom(s)
    ensures Run(s, steps).cfg == s.cfg && OneRoom(Run(s, steps))
    decreases |steps|
  {
    if steps != [] {
      NextInv(s, steps[0]);
      ClaimsCopied(s, steps[0]);
      RunRoom(Next(s, steps[0]), steps[1..]);
    }
  }

  /** In every run whoever is in control or waiting holds a token for this host's room. */
  lemma OnlyThisRoom<C(!new)>(cfg: Config, steps: seq<Step<C>>, e: nat)
    requires e < |RunFrom(cfg, steps).entries|
    ensures RunFrom(cfg, steps).entries[e].claims.roomID == cfg.roomID
  {
    InitialInv<C>(cfg);
    RunRoom<C>(Initial(cfg), steps);
  }

  // ---- Release and end -----------------------------------------------------

  /** The gates listed on an entry are closed, all others are as they were. */
  ghost predicate ClosesGatesOf<C(!new)>(s: State<C>, t: State<C>, e: nat)
    requires e < |s.entries|
  {
    && |t.gates| == |s.gates|
    && forall g :: 0 <= g < |s.gates| ==>
         if g in s.entries[e].gates && !s.gates[g].closed
         then t.gates[g] == s.gates[g].(closed := true, closes := s.gates[g].closes + 1)
         else t.gates[g] == s.gates[g]
  }

  /** Releasing a waiting viewer takes that entry out of the queue, the others staying in order, ends its context and
      closes its gates; nothing else changes. */
  lemma ReleaseExact<C(!new)>(s: State<C>, e: nat) returns (k: nat)
    requires Inv(s) && s.active != Some(e) && e in s.queue
    ensures k < |s.queue| && s.queue[k] == e
    ensures var t := Release(s, e);
            && t.queue == s.queue[..k] + s.queue[k + 1..] && t.active == s.active
            && |t.entries| == |s.entries| && (forall f :: 0 <= f < |s.entries| && f != e ==> t.entries[f] == s.entries[f])
            && t.entries[e].cancelled && t.entries[e].gatesDone && t.entries[e].claims == s.entries[e].claims
            && ClosesGatesOf(s, t, e) && t.hist.events == s.hist.events && t.stopped == s.stopped
  {
    k := WithoutIndex(s.queue, e);
    ReleaseTerminates(s, e);
  }

  lemma ReleaseTerminates<C(!new)>(s: State<C>, e: nat)
    requires s.Sound() && e < |s.entries| && s.active != Some(e) && e in s.queue
    ensures var t := Release(s, e);
            && t.active == s.active && t.queue == Without(s.queue, e) && |t.entries| == |s.entries|
            && (forall f :: 0 <= f < |s.entries| && f != e ==> t.entries[f] == s.entries[f])
            && t.entries[e].cancelled && t.entries[e].gatesDone && t.entries[e].claims == s.entries[e].claims
            && ClosesGatesOf(s, t, e) && t.hist.events == s.hist.events && t.stopped == s.stopped
  {
  }

  /** Ending the active session ends its context and closes its gates. The head of the queue, if any, gets control in a
      fresh entry with its claims and its gates; the others move up. */
  lemma EndExact<C(!new)>(s: State<C>, e: nat, kind: EndKind)
    requires Inv(s) && s.active == Some(e)
    ensures var t, n := EndSession(s, e, kind), |s.entries|;
            && ClosesGatesOf(s, t, e) && t.stopped == s.stopped
            && |t.entries| >= n && t.entries[e].cancelled && t.entries[e].gatesDone
            && (s.queue == [] ==> t.active.None? && t.queue == [] && |t.entries| == n)
            && (s.queue != [] ==>
                  var h := s.queue[0];
                  && t.active == Some(n) && t.queue == s.queue[1..] && |t.entries| == n + 1
                  && t.entries[n].claims == s.entries[h].claims && t.entries[n].gates == s.entries[h].gates
                  && !t.entries[n].ContextDone() && t.entries[h].cancelled
                  && (forall f :: 0 <= f < n && f != e && f != h ==> t.entries[f] == s.entries[f]))
  {
    EndAlone(s, e, kind);
    if s.queue != [] {
      EndPromotes(s, e, kind);
    }
  }

  lemma EndAlone<C(!new)>(s: State<C>, e: nat, kind: EndKind)
    requires Tables(s) && s.active == Some(e)
    ensures var t, n := EndSession(s, e, kind), |s.entries|;
            && ClosesGatesOf(s, t, e) && t.stopped == s.stopped
            && |t.entries| >= n && t.entries[e].cancelled && t.entries[e].gatesDone
            && (s.queue == [] ==> t.active.None? && t.queue == [] && |t.entries| == n)
  {
  }

  lemma EndPromotes<C(!new)>(s: State<C>, e: nat, kind: EndKind)
    requires Tables(s) && s.active == Some(e) && s.queue != []
    ensures var t, n, h := EndSession(s, e, kind), |s.entries|, s.queue[0];
            && t.active == Some(n) && t.queue == s.queue[1..] && |t.entries| == n + 1
            && t.entries[n].claims == s.entries[h].claims && t.entries[n].gates == s.entries[h].gates
            && !t.entries[n].ContextDone() && t.entries[h].cancelled
            && (forall f :: 0 <= f < n && f != e && f != h ==> t.entries[f] == s.entries[f])
  {
  }

  // ---- Gates and shutdown --------------------------------------------------

  lemma {:induction false} FindInExact(entries: seq<Entry>, queue: seq<nat>, viewer: string)
    requires forall i :: 0 <= i < |queue| ==> queue[i] < |entries|
    ensures FindIn(entries, queue, viewer).Some? <==>
            exists i :: 0 <= i < |queue| && entries[queue[i]].claims.viewerID == viewer
  {
    if queue != [] {
      FindInExact(entries, queue[1..], viewer);
      assert forall i :: 0 < i < |queue| ==> queue[1..][i - 1] == queue[i];
    }
  }

  /** In control, or waiting. */
  ghost predicate Present<C(!new)>(s: State<C>, viewer: string)
    requires s.Sound()
  {
    || (s.active.Some? && s.entries[s.active.value].claims.viewerID == viewer)
    || exists i :: 0 <= i < |s.queue| && s.entries[s.queue[i]].claims.viewerID == viewer
  }

  /** Before shutdown a new gate is open iff its viewer is in control or waiting; otherwise it is closed from the start. */
  lemma GateOpensIffPresent<C(!new)>(cfg: Config, steps: seq<Step<C>>, viewer: string)
    requires !RunFrom(cfg, steps).stopped
    ensures var s := RunFrom(cfg, steps);
            && s.Sound() && |OpenGate(s, viewer).gates| == |s.gates| + 1
            && OpenGate(s, viewer).gates[|s.gates|].viewer == viewer
            && (OpenGate(s, viewer).gates[|s.gates|].closed <==> !Present(s, viewer))
  {
    InitialInv<C>(cfg);
    RunContexts<C>(Initial(cfg), steps);
    GateOpens(RunFrom(cfg, steps), viewer);
  }

  lemma GateOpens<C(!new)>(s: State<C>, viewer: string)
    requires Tables(s) && Contexts(s) && !s.stopped
    ensures |OpenGate(s, viewer).gates| == |s.gates| + 1 && OpenGate(s, viewer).gates[|s.gates|].viewer == viewer
    ensures OpenGate(s, viewer).gates[|s.gates|].closed <==> !Present(s, viewer)
  {
    FindInExact(s.entries, s.queue, viewer);
  }

  /** A gate's goroutine: it picks up one command at a time; looks whether its viewer is in control; then puts the command
      on the channel iff that was so, the channel is open and one of 8 places is free, and waits again; returning closes
      the channel. */
  lemma GoroutineExact<C(!new)>(s: State<C>, g: nat, cmd: C)
    requires s.Sound() && g < |s.gates|
    ensures var gate := s.gates[g];
            && (gate.pc == GatePc.Waiting ==> GateReceive(s, g, cmd).gates == s.gates[g := gate.(pc := Holding(cmd))])
            && (gate.pc == Holding(cmd) ==>
                  GateCheck(s, g).gates == s.gates[g := gate.(pc := Decided(cmd, s.Controller() == Some(gate.viewer)))])
            && (gate.pc == Decided(cmd, true) && !gate.closed && |gate.out| < 8 ==>
                  GateSend(s, g).gates == s.gates[g := gate.(pc := GatePc.Waiting, out := gate.out + [cmd])])
            && (gate.pc == Decided(cmd, false) || (gate.pc == Decided(cmd, true) && (gate.closed || |gate.out| >= 8)) ==>
                  GateSend(s, g).gates == s.gates[g := gate.(pc := GatePc.Waiting)])
            && (gate.pc == GatePc.Waiting ==>
                  GateExit(s, g).gates[g].closed && GateExit(s, g).gates[g].pc == Exited)
  {
  }

  /** Shutdown ends every context and closes every gate; nobody is moved and nothing is announced. */
  lemma ShutdownExact<C(!new)>(s: State<C>)
    requires Inv(s)
    ensures var t := Shutdown(s);
            && t.stopped && t.active == s.active && t.queue == s.queue && t.hist == s.hist
            && |t.entries| == |s.entries| && (forall e :: 0 <= e < |s.entries| ==> t.entries[e].cancelled)
            && |t.gates| == |s.gates| && (forall g :: 0 <= g < |s.gates| ==> t.gates[g].closed)
  {
    ShutdownEffect(s);
    ShutdownGates(s);
    ShutdownCancels(s);
  }

  lemma ShutdownCancels<C(!new)>(s: State<C>)
    requires Tables(s)
    ensures |Shutdown(s).entries| == |s.entries|
    ensures forall e :: 0 <= e < |s.entries| ==> Shutdown(s).entries[e].cancelled
  {
    var live := (if s.active.Some? then [s.active.value] else []) + s.queue;
    TerminateAllEffect(s.(stopped := true), live);
    forall e | 0 <= e < |s.entries|
      ensures Shutdown(s).entries[e].cancelled
    {
      if s.Live(e) {
        assert e in live;
      }
    }
  }

  /** The events channel is closed after shutdown only; a listener is served from its subscription until it leaves, and
      its channel is closed then, once. */
  lemma ListenersExact<C(!new)>(s: State<C>, ch: nat)
    ensures CloseEvents(s) == s.(eventsClosed := s.eventsClosed || s.stopped)
    ensures var t := Subscribe(s, ch);
            ch !in s.closedSubscribers ==> t == s.(subscribers := s.subscribers + {ch})
    ensures var t := Unsubscribe(s, ch);
            if ch in s.subscribers
            then t == s.(subscribers := s.subscribers - {ch}, closedSubscribers := s.closedSubscribers + {ch})
            else t == s
  {
  }

  // ---- Events --------------------------------------------------------------

  /** What a step tells its listeners before shutdown. */
  ghost function Announced<C(!new)>(s: State<C>, step: Step<C>): seq<Event>
    requires s.Sound()
  {
    match step
    case SClaim(v) =>
      if !Acceptable(s, v) then []
      else if s.active.None? then [Granted(v.value.viewerID, v.value.sessionSeconds)]
      else [Queued(v.value.viewerID, |s.queue| + 1)]
    case SEnd(e, kind) =>
      if s.active != Some(e) then []
      else if s.queue == [] then [Ended(s.entries[e].claims.viewerID, kind)]
      else
        var next := s.entries[s.queue[0]].claims;
        [Ended(s.entries[e].claims.viewerID, kind), Granted(next.viewerID, next.sessionSeconds)]
    case STick(v) => [Tick(v)]
    case _ => []
  }

  lemma EndAnnounces<C(!new)>(s: State<C>, e: nat, kind: EndKind)
    requires Tables(s)
    ensures EndSession(s, e, kind).hist.events == s.hist.events + (if s.stopped then [] else Announced(s, SEnd(e, kind)))
  {
    if s.active == Some(e) && s.queue != [] && !s.stopped {
      var ended := Ended(s.entries[e].claims.viewerID, kind);
      var next := s.entries[s.queue[0]].claims;
      var granted := Granted(next.viewerID, next.sessionSeconds);
      assert (s.hist.events + [ended]) + [granted] == s.hist.events + [ended, granted];
    }
  }

  /** Every step announces exactly that. */
  lemma EventsExact<C(!new)>(s: State<C>, step: Step<C>)
    requires Inv(s)
    ensures Next(s, step).hist.events == s.hist.events + (if s.stopped then [] else Announced(s, step))
  {
    if step.SEnd? {
      EndAnnounces(s, step.e, step.kind);
    } else if step.SShutdown? {
      ShutdownEffect(s);
    } else if GateStep(step) {
      GateStepFrame(s, step);
    } else {
      OthersAnnounce(s, step);
    }
  }

  lemma OthersAnnounce<C(!new)>(s: State<C>, step: Step<C>)
    requires s.Sound() && !step.SEnd? && !step.SShutdown? && !GateStep(step)
    ensures Next(s, step).hist.events == s.hist.events + (if s.stopped then [] else Announced(s, step))
  {
  }
}
