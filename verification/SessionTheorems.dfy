/** The session manager's promises, for every interleaving from start-up. */
module SessionTheorems {
  import opened Common
  import opened Session
  import opened SessionInvariant

  ghost function RunFrom<C(!new)>(cfg: Config, steps: seq<Step<C>>): State<C> { Run(Initial(cfg), steps) }

  /** Every reachable state satisfies the invariant, so none of its steps follows a dangling pointer. */
  lemma ReachableInv<C(!new)>(cfg: Config, steps: seq<Step<C>>)
    ensures Inv(RunFrom(cfg, steps))
  {
    InitialInv<C>(cfg);
    RunInv(Initial(cfg), steps);
  }

  // ---- Gates ---------------------------------------------------------------

  /** Every command that ever left a gate left it while the gate's viewer was the controller. */
  lemma GateSafety<C(!new)>(cfg: Config, steps: seq<Step<C>>)
    ensures var s := RunFrom(cfg, steps);
            forall i :: 0 <= i < |s.hist.sent| ==>
              s.hist.sent[i].gate < |s.gates|
              && s.hist.sent[i].controller == Some(s.gates[s.hist.sent[i].gate].viewer)
  {
    ReachableInv(cfg, steps);
  }

  /** Between the check and the send the session cannot have changed hands: the gate still sits on the active entry. */
  lemma CheckedGateSitsOnController<C(!new)>(cfg: Config, steps: seq<Step<C>>, g: nat)
    requires g < |RunFrom(cfg, steps).gates|
    requires var gate := RunFrom(cfg, steps).gates[g]; gate.pc.Decided? && gate.pc.isActive && !gate.closed
    ensures var s := RunFrom(cfg, steps);
            s.active.Some? && s.active.value < |s.entries|
            && s.entries[s.active.value].Viewer() == s.gates[g].viewer
            && g in s.entries[s.active.value].gates
  {
    ReachableInv(cfg, steps);
    assert GateOk(RunFrom(cfg, steps), g);
  }

  /** A channel is closed at most once, and exactly when its gate is marked closed. */
  lemma GateClosedOnce<C(!new)>(cfg: Config, steps: seq<Step<C>>, g: nat)
    requires g < |RunFrom(cfg, steps).gates|
    ensures var gate := RunFrom(cfg, steps).gates[g]; gate.closes == if gate.closed then 1 else 0
  {
    ReachableInv(cfg, steps);
    assert GateOk(RunFrom(cfg, steps), g);
  }

  /** The step ends the entry that carries gate g, or all of them, or is the goroutine's own return. */
  ghost predicate Closes<C>(s: State<C>, step: Step<C>, g: nat)
    requires s.Sound() && g < |s.gates|
  {
    match step
    case SExit(h) => h == g && s.gates[g].pc == GatePc.Waiting
    case SShutdown => true
    case SRelease(e) => e in s.queue && s.active != Some(e) && g in s.entries[e].gates
    case SEnd(e, _) => s.active == Some(e) && g in s.entries[e].gates
    case _ => false
  }

  lemma EndCloses<C(!new)>(s: State<C>, e: nat, kind: EndKind, g: nat)
    requires Inv(s) && g < |s.gates|
    ensures var s' := EndSession(s, e, kind);
            && |s'.gates| == |s.gates|
            && (s'.gates[g].closed <==> s.gates[g].closed || (s.active == Some(e) && g in s.entries[e].gates))
  {
  }

  lemma ReleaseCloses<C(!new)>(s: State<C>, e: nat, g: nat)
    requires Inv(s) && g < |s.gates| && e < |s.entries|
    ensures var s' := Release(s, e);
            && |s'.gates| == |s.gates|
            && (s'.gates[g].closed <==>
                  s.gates[g].closed || (s.active != Some(e) && e in s.queue && g in s.entries[e].gates))
  {
  }

  /** A gate closes exactly at such a step, and never reopens or disappears. */
  lemma GateClosesExactlyWhen<C(!new)>(s: State<C>, step: Step<C>, g: nat)
    requires Inv(s) && g < |s.gates|
    ensures g < |Next(s, step).gates|
    ensures Next(s, step).gates[g].closed <==> s.gates[g].closed || Closes(s, step, g)
  {
    match step {
      case SShutdown => ShutdownGates(s);
      case SEnd(e, kind) => EndCloses(s, e, kind, g);
      case SRelease(e) => if e < |s.entries| { ReleaseCloses(s, e, g); }
      case _ => OtherCloses(s, step, g);
    }
  }

  lemma OtherCloses<C(!new)>(s: State<C>, step: Step<C>, g: nat)
    requires s.Sound() && g < |s.gates| && !step.SShutdown? && !step.SEnd? && !step.SRelease?
    ensures g < |Next(s, step).gates|
    ensures Next(s, step).gates[g].closed <==> s.gates[g].closed || Closes(s, step, g)
  {
  }

  /** Promotion hands the waiting viewer's open gates, still open, to the new active entry. */
  lemma GatesSurvivePromotion<C(!new)>(s: State<C>, kind: EndKind, g: nat)
    requires Inv(s) && s.active.Some? && |s.queue| > 0
    requires g in s.entries[s.queue[0]].gates && g < |s.gates| && !s.gates[g].closed
    ensures var s' := EndSession(s, s.active.value, kind);
            && s'.active == Some(|s.entries|) && s'.queue == s.queue[1..]
            && s'.entries[|s.entries|].claims == s.entries[s.queue[0]].claims
            && s'.gates[g] == s.gates[g] && g in s'.entries[|s.entries|].gates
  {
    var e := s.active.value;
    assert GateOk(s, g);
    GateOnOneEntry(s, e, s.queue[0], g);
  }

  lemma GateOnOneEntry<C(!new)>(s: State<C>, e: nat, f: nat, g: nat)
    requires Inv(s) && e < |s.entries| && f < |s.entries| && e != f
    requires g in s.entries[f].gates
    ensures g !in s.entries[e].gates
  {
    assert Disjoint(s.entries[f].gates, s.entries[e].gates);
  }

  // ---- Entries -------------------------------------------------------------

  /** An allocated entry becomes active or joins the queue only by being so already: both are set to fresh entries. */
  ghost predicate OnlyFresh<C>(s: State<C>, t: State<C>, e: nat) {
    && e < |t.entries|
    && (t.active == Some(e) ==> s.active == Some(e))
    && (e in t.queue ==> e in s.queue)
  }

  lemma EndOnlyFresh<C(!new)>(s: State<C>, f: nat, kind: EndKind, e: nat)
    requires s.Sound() && e < |s.entries|
    ensures OnlyFresh(s, EndSession(s, f, kind), e)
  {
  }

  lemma ReleaseOnlyFresh<C(!new)>(s: State<C>, f: nat, e: nat)
    requires s.Sound() && e < |s.entries| && f < |s.entries|
    ensures OnlyFresh(s, Release(s, f), e)
  {
  }

  lemma ClaimOnlyFresh<C(!new)>(s: State<C>, verified: Option<Claims>, e: nat)
    requires s.Sound() && e < |s.entries|
    ensures OnlyFresh(s, Claim(s, verified), e)
  {
  }

  lemma NextOnlyFresh<C(!new)>(s: State<C>, step: Step<C>, e: nat)
    requires s.Sound() && e < |s.entries|
    ensures OnlyFresh(s, Next(s, step), e)
  {
    hide OnlyFresh, EndSession, Release, Claim;
    match step {
      case SEnd(f, kind) => EndOnlyFresh(s, f, kind, e);
      case SRelease(f) => if f < |s.entries| { ReleaseOnlyFresh(s, f, e); } else { SameOnlyFresh(s, s, e); }
      case SClaim(v) => ClaimOnlyFresh(s, v, e);
      case SShutdown => ShutdownEffect(s); SameOnlyFresh(s, Shutdown(s), e);
      case SGate(_) => SameOnlyFresh(s, Next(s, step), e);
      case SDeadline(_) => SameOnlyFresh(s, Next(s, step), e);
      case _ =>
        if GateStep(step) { GateStepFrame(s, step); } else { ListenerStepFrame(s, step); }
        SameOnlyFresh(s, Next(s, step), e);
    }
  }

  lemma SameOnlyFresh<C(!new)>(s: State<C>, t: State<C>, e: nat)
    requires e < |s.entries| && t.active == s.active && t.queue == s.queue && |t.entries| == |s.entries|
    ensures OnlyFresh(s, t, e)
  {
  }

  lemma {:induction false} RunOnlyFresh<C(!new)>(s: State<C>, steps: seq<Step<C>>, e: nat)
    requires Inv(s) && e < |s.entries|
    ensures OnlyFresh(s, Run(s, steps), e)
    decreases |steps|
  {
    hide Next, Inv;
    InvSound(s);
    if steps != [] {
      NextInv(s, steps[0]);
      NextOnlyFresh(s, steps[0], e);
      RunOnlyFresh(Next(s, steps[0]), steps[1..], e);
    }
  }

  /** Once an entry is neither active nor waiting it stays so. */
  lemma DeadStaysDead<C(!new)>(s: State<C>, steps: seq<Step<C>>, e: nat)
    requires Inv(s) && e < |s.entries| && !s.Live(e)
    ensures e < |Run(s, steps).entries| && !Run(s, steps).Live(e)
  {
    RunOnlyFresh(s, steps, e);
  }

  /** Ending a session is idempotent: whatever the timer, the idle kick and Release race to do with an
      entry after it ended, however much later, changes nothing. */
  lemma EndSessionOnce<C(!new)>(s: State<C>, e: nat, kind: EndKind, steps: seq<Step<C>>, again: EndKind)
    requires Inv(s) && s.active == Some(e)
    ensures Inv(EndSession(s, e, kind))
    ensures var later := Run(EndSession(s, e, kind), steps);
            && later.Sound() && e < |later.entries| && EndSession(later, e, again) == later && Release(later, e) == later
  {
    EndInv(s, e, kind);
    RunInv(EndSession(s, e, kind), steps);
    DeadStaysDead(EndSession(s, e, kind), steps, e);
  }

  // ---- Session handles -----------------------------------------------------

  /** Until shutdown nothing active or waiting has been cancelled or had its gates closed, and no deadline runs for what
      is waiting. */
  ghost predicate Contexts<C(!new)>(s: State<C>)
    requires s.Sound()
  {
    !s.stopped ==>
      && (s.active.Some? ==> !s.entries[s.active.value].cancelled && !s.entries[s.active.value].gatesDone)
      && (forall i :: 0 <= i < |s.queue| ==> !s.entries[s.queue[i]].ContextDone() && !s.entries[s.queue[i]].gatesDone)
  }

  lemma EndContexts<C(!new)>(s: State<C>, e: nat, kind: EndKind)
    requires Tables(s) && Contexts(s) && EndSession(s, e, kind).Sound()
    ensures Contexts(EndSession(s, e, kind))
  {
    if s.active == Some(e) && s.queue != [] {
      var t := EndSession(s, e, kind);
      assert t.queue == s.queue[1..];
      forall i | 0 <= i < |t.queue|
        ensures t.entries[t.queue[i]] == s.entries[s.queue[i + 1]]
      {
        assert s.queue[i + 1] != s.queue[0] && s.queue[i + 1] != e;
      }
    }
  }

  lemma ReleaseContexts<C(!new)>(s: State<C>, e: nat)
    requires Tables(s) && Contexts(s) && e < |s.entries| && Release(s, e).Sound()
    ensures Contexts(Release(s, e))
  {
    if s.active != Some(e) && e in s.queue {
      ReleaseEffect(s, e);
      WithoutKeeps(s.queue, e);
      hide Release, Tables;
      var t := Release(s, e);
      forall i | 0 <= i < |t.queue| && !s.stopped
        ensures !t.entries[t.queue[i]].ContextDone() && !t.entries[t.queue[i]].gatesDone
      {
        assert t.queue[i] in s.queue && t.queue[i] != e;
      }
    }
  }

  lemma ClaimContexts<C(!new)>(s: State<C>, verified: Option<Claims>)
    requires Tables(s) && Contexts(s) && Claim(s, verified).Sound()
    ensures Contexts(Claim(s, verified))
  {
  }

  lemma OpenGateEntries<C(!new)>(s: State<C>, viewer: string)
    requires s.Sound()
    ensures var t := OpenGate(s, viewer);
            && t.active == s.active && t.queue == s.queue && t.stopped == s.stopped && |t.entries| == |s.entries|
            && forall e :: 0 <= e < |s.entries| ==> t.entries[e] == s.entries[e].(gates := t.entries[e].gates)
  {
  }

  lemma OpenGateContexts<C(!new)>(s: State<C>, viewer: string)
    requires s.Sound() && Contexts(s) && OpenGate(s, viewer).Sound()
    ensures Contexts(OpenGate(s, viewer))
  {
    OpenGateEntries(s, viewer);
    hide OpenGate;
  }

  lemma DeadlineContexts<C(!new)>(s: State<C>, e: nat)
    requires Tables(s) && Contexts(s) && Deadline(s, e).Sound()
    ensures Contexts(Deadline(s, e))
  {
  }

  lemma SameContexts<C(!new)>(s: State<C>, t: State<C>)
    requires s.Sound() && t.Sound() && Contexts(s)
    requires t.stopped || (!s.stopped && t.active == s.active && t.queue == s.queue && t.entries == s.entries)
    ensures Contexts(t)
  {
  }

  lemma NextContexts<C(!new)>(s: State<C>, step: Step<C>)
    requires Tables(s) && Contexts(s) && Next(s, step).Sound()
    ensures Contexts(Next(s, step))
  {
    hide Contexts, EndSession, Release, Claim, Deadline;
    match step {
      case SEnd(e, kind) => EndContexts(s, e, kind);
      case SRelease(e) => if e < |s.entries| { ReleaseContexts(s, e); }
      case SClaim(v) => ClaimContexts(s, v);
      case SGate(v) => OpenGateContexts(s, v);
      case SDeadline(e) => DeadlineContexts(s, e);
      case SShutdown => ShutdownEffect(s); SameContexts(s, Shutdown(s));
      case _ =>
        if GateStep(step) { GateStepFrame(s, step); } else { ListenerStepFrame(s, step); }
        SameContexts(s, Next(s, step));
    }
  }

  lemma {:induction false} RunContexts<C(!new)>(s: State<C>, steps: seq<Step<C>>)
    requires Inv(s) && Contexts(s)
    ensures Inv(Run(s, steps)) && Contexts(Run(s, steps))
    decreases |steps|
  {
    if steps != [] {
      NextInv(s, steps[0]);
      NextContexts(s, steps[0]);
      RunContexts(Next(s, steps[0]), steps[1..]);
    }
  }

  /** What the handle e returned by an accepted Claim stands for in every later state t: its viewer's control if
      nobody was in control when it was claimed, else only the viewer's place in the queue, never control. Releasing it
      does nothing iff that is over. Until shutdown its context has ended iff that is over, or it is still in control
      with its deadline passed; a waiting handle's context has not ended. */
  lemma HandleFate<C(!new)>(cfg: Config, steps: seq<Step<C>>, verified: Option<Claims>, later: seq<Step<C>>)
    requires ClaimOutcome(RunFrom(cfg, steps), verified).Session?
    ensures var s := RunFrom(cfg, steps);
            var e, t := ClaimOutcome(s, verified).entry, Run(Claim(s, verified), later);
            && t.Sound() && e < |t.entries|
            && (s.active.None? ==> Claim(s, verified).active == Some(e) && e !in t.queue)
            && (s.active.Some? ==> e in Claim(s, verified).queue && t.active != Some(e))
            && (ReleaseCall(t, e) == t <==> !t.Live(e))
            && (!t.Live(e) ==> t.entries[e].ContextDone())
            && (!t.stopped ==>
                  && (t.entries[e].ContextDone() <==> !t.Live(e) || (t.active == Some(e) && t.entries[e].expired))
                  && (e in t.queue ==> !t.entries[e].ContextDone()))
  {
    var s := RunFrom(cfg, steps);
    InitialInv<C>(cfg);
    RunContexts<C>(Initial(cfg), steps);
    ClaimInv(s, verified);
    ClaimContexts(s, verified);
    RunContexts(Claim(s, verified), later);
    HandleStart(s, verified);
    var e, t := ClaimOutcome(s, verified).entry, Run(Claim(s, verified), later);
    RunOnlyFresh(Claim(s, verified), later, e);
    ContextOf(t, e);
    ReleaseActsIffLive(t, e);
  }

  lemma HandleStart<C(!new)>(s: State<C>, verified: Option<Claims>)
    requires Tables(s) && ClaimOutcome(s, verified).Session?
    ensures var e, t := ClaimOutcome(s, verified).entry, Claim(s, verified);
            && e < |t.entries|
            && (s.active.None? ==> t.active == Some(e) && e !in t.queue)
            && (s.active.Some? ==> t.active != Some(e) && e in t.queue)
  {
  }

  lemma ContextOf<C(!new)>(s: State<C>, e: nat)
    requires Tables(s) && Contexts(s) && e < |s.entries|
    ensures !s.Live(e) ==> s.entries[e].ContextDone()
    ensures !s.stopped && s.active == Some(e) ==> !s.entries[e].cancelled && e !in s.queue
    ensures !s.stopped && e in s.queue ==> !s.entries[e].ContextDone()
  {
  }

  lemma ReleaseActsIffLive<C(!new)>(s: State<C>, e: nat)
    requires Tables(s) && e < |s.entries|
    ensures ReleaseCall(s, e) == s <==> !s.Live(e)
  {
    if s.active != Some(e) && e in s.queue {
      ReleaseEffect(s, e);
      WithoutKeeps(s.queue, e);
    }
  }

  /** A context ends before its session does: when the deadline of the active entry passes, the context is done, yet the
      viewer stays in control with all gates as they were until the session is ended, and that still acts. */
  lemma DeadlineLeavesControl<C(!new)>(s: State<C>, e: nat)
    requires Inv(s) && s.active == Some(e)
    ensures var t := Next(s, SDeadline(e));
            && Inv(t) && t.entries[e].ContextDone()
            && t.active == s.active && t.queue == s.queue && t.Controller() == s.Controller() && t.gates == s.gates
            && ReleaseCall(t, e) != t
  {
    DeadlineInv(s, e);
    DeadlineTables(s, e);
    ReleaseActsIffLive(Deadline(s, e), e);
  }

  /** For example right after a first claim. */
  lemma ContextEndsBeforeControl<C(!new)>(cfg: Config, claims: Claims)
    requires claims.roomID == cfg.roomID
    ensures var t := RunFrom<C>(cfg, [SClaim(Some(claims)), SDeadline(0)]);
            && t.Sound() && t.Controller() == Some(claims.viewerID) && t.entries[0].ContextDone()
            && EndSession(t, 0, Expired) != t
  {
    var steps: seq<Step<C>> := [SClaim(Some(claims)), SDeadline(0)];
    var s: State<C> := Initial(cfg);
    InitialInv<C>(cfg);
    var s1 := Next(s, steps[0]);
    NextInv(s, steps[0]);
    DeadlineLeavesControl(s1, 0);
    assert steps[1..] == [steps[1]] && steps[1..][1..] == [];
    assert Run(s, steps) == Run(s1, steps[1..]) == Run(Next(s1, steps[1]), []);
  }

  /** So the handle of a viewer who had to queue goes stale when the viewer gets control: its context has
      ended and releasing it does nothing, although the viewer is the controller. */
  lemma PromotedHandleIsStale<C(!new)>(s: State<C>, kind: EndKind)
    requires Inv(s) && s.active.Some? && |s.queue| > 0
    ensures var n, s' := s.queue[0], EndSession(s, s.active.value, kind);
            && s'.Controller() == Some(s.entries[n].Viewer())
            && s'.entries[n].cancelled && Release(s', n) == s' && EndSession(s', n, Expired) == s'
  {
    EndInv(s, s.active.value, kind);
  }

  // ---- Scheduling ----------------------------------------------------------

  /** Grants, then the queue, are the accepted claims in order of acceptance less those released while
      waiting; the queue is bounded, empty without a controller, and empty under PolicyReject. */
  lemma FifoScheduling<C(!new)>(cfg: Config, steps: seq<Step<C>>)
    ensures var s := RunFrom(cfg, steps);
            && s.Sound() && Line(s.hist.grants + WaitingTickets(s.entries, s.queue), s.hist.tickets, s.hist.released)
            && (s.active.None? ==> s.queue == [])
            && (s.cfg.policy == PolicyReject ==> s.queue == [])
            && (s.cfg.maxQueueDepth > 0 ==> |s.queue| <= s.cfg.maxQueueDepth)
  {
    ReachableInv(cfg, steps);
  }

  ghost predicate ControlEvent(ev: Event) { ev.Granted? || ev.Ended? }

  /** Before shutdown the event stream tells who is in control. */
  lemma EventsTellController<C(!new)>(cfg: Config, steps: seq<Step<C>>)
    ensures var s := RunFrom(cfg, steps);
            s.Sound() && Replay(s.hist.events).Some? && (!s.stopped ==> Replay(s.hist.events).value == s.Controller())
  {
    ReachableInv(cfg, steps);
  }

  lemma {:induction false} ReplayPrefix(events: seq<Event>, n: nat)
    requires Replay(events).Some? && n <= |events|
    ensures Replay(events[..n]).Some?
    decreases |events|
  {
    if n < |events| {
      ReplayPrefix(events[..|events| - 1], n);
      assert events[..|events| - 1][..n] == events[..n];
    } else {
      assert events[..n] == events;
    }
  }

  lemma {:induction false} ReplayQuiet(events: seq<Event>, i: nat, j: nat)
    requires i <= j <= |events| && forall k :: i <= k < j ==> !ControlEvent(events[k])
    ensures Replay(events[..j]) == Replay(events[..i])
    decreases j
  {
    if i < j {
      ReplayQuiet(events, i, j - 1);
      assert events[..j][..j - 1] == events[..j - 1];
    }
  }

  lemma Alternates(ev: seq<Event>, i: nat, j: nat)
    requires Replay(ev).Some? && i < j < |ev|
    requires ControlEvent(ev[i]) && ControlEvent(ev[j]) && forall k :: i < k < j ==> !ControlEvent(ev[k])
    ensures if ev[i].Granted? then ev[j].Ended? && ev[j].viewer == ev[i].viewer else ev[j].Granted?
  {
    ReplayPrefix(ev, i + 1);
    ReplayPrefix(ev, j + 1);
    ReplayQuiet(ev, i + 1, j);
    assert ev[..i + 1][..i] == ev[..i] && ev[..j + 1][..j] == ev[..j];
  }

  /** A grant is followed by the end of the same viewer's session, an end by a grant. */
  lemma GrantsAndEndsAlternate<C(!new)>(cfg: Config, steps: seq<Step<C>>, i: nat, j: nat)
    requires i < j < |RunFrom(cfg, steps).hist.events|
    requires var ev := RunFrom(cfg, steps).hist.events;
             ControlEvent(ev[i]) && ControlEvent(ev[j]) && forall k :: i < k < j ==> !ControlEvent(ev[k])
    ensures var ev := RunFrom(cfg, steps).hist.events;
            if ev[i].Granted? then ev[j].Ended? && ev[j].viewer == ev[i].viewer else ev[j].Granted?
  {
    EventsTellController(cfg, steps);
    Alternates(RunFrom(cfg, steps).hist.events, i, j);
  }

  /** If the step hands an event to emitEvent's channels, the events channel and every subscriber's channel are
      open; if it puts a command on a gate's channel, that one is open. */
  ghost predicate SendsOnOpenChannels<C(!new)>(s: State<C>, t: State<C>) {
    && (t.hist.events != s.hist.events ==> !s.stopped && !s.eventsClosed && s.subscribers !! s.closedSubscribers)
    && (forall g :: 0 <= g < |s.gates| ==> g < |t.gates| && (|t.gates[g].out| > |s.gates[g].out| ==> !s.gates[g].closed))
  }

  lemma StepSends<C(!new)>(s: State<C>, step: Step<C>)
    requires Inv(s)
    ensures SendsOnOpenChannels(s, Next(s, step))
  {
    InvListeners(s);
    SilentOnceStopped(s, step);
    var t := Next(s, step);
    hide Next, Inv;
    forall g | 0 <= g < |s.gates|
      ensures g < |t.gates| && (|t.gates[g].out| > |s.gates[g].out| ==> !s.gates[g].closed)
    {
      SendsOnlyOpen(s, step, g);
    }
  }

  /** No step of any run sends on a closed channel. */
  lemma NoSendOnClosedChannel<C(!new)>(cfg: Config, steps: seq<Step<C>>, step: Step<C>)
    ensures var s := RunFrom(cfg, steps); s.Sound() && SendsOnOpenChannels(s, Next(s, step))
  {
    hide Next, SendsOnOpenChannels;
    ReachableInv(cfg, steps);
    StepSends(RunFrom(cfg, steps), step);
  }

  lemma InvListeners<C(!new)>(s: State<C>)
    requires Inv(s)
    ensures s.Sound() && (s.eventsClosed ==> s.stopped) && s.subscribers !! s.closedSubscribers
  {
  }

  lemma SilentOnceStopped<C(!new)>(s: State<C>, step: Step<C>)
    requires s.Sound()
    ensures s.stopped ==> Next(s, step).hist.events == s.hist.events
  {
    if step.SShutdown? {
      ShutdownEffect(s);
    } else if GateStep(step) {
      GateStepFrame(s, step);
    } else if ListenerStep(step) {
      ListenerStepFrame(s, step);
    }
  }

  lemma GateSendsOnlyOpen<C(!new)>(s: State<C>, step: Step<C>, g: nat)
    requires s.Sound() && g < |s.gates| && GateStep(step) && |Next(s, step).gates| == |s.gates|
    ensures |Next(s, step).gates[g].out| > |s.gates[g].out| ==> !s.gates[g].closed
  {
  }

  lemma SendsOnlyOpen<C(!new)>(s: State<C>, step: Step<C>, g: nat)
    requires s.Sound() && g < |s.gates|
    ensures g < |Next(s, step).gates| && (|Next(s, step).gates[g].out| > |s.gates[g].out| ==> !s.gates[g].closed)
  {
    hide EndSession, Deadline, Release, OpenGate, Claim, GateReceive, GateCheck, GateSend, GateTake, GateExit, Emit;
    if step.SShutdown? {
      TerminateAllEffect(s.(stopped := true), (if s.active.Some? then [s.active.value] else []) + s.queue);
    } else if GateStep(step) {
      GateStepFrame(s, step);
      GateSendsOnlyOpen(s, step, g);
    } else if ListenerStep(step) {
      ListenerStepFrame(s, step);
    } else {
      ManagerSendsNothing(s, step, g);
    }
  }

  lemma ManagerSendsNothing<C(!new)>(s: State<C>, step: Step<C>, g: nat)
    requires s.Sound() && g < |s.gates| && (step.SClaim? || step.SRelease? || step.SEnd? || step.SDeadline? || step.SGate?)
    ensures g < |Next(s, step).gates| && Next(s, step).gates[g].out == s.gates[g].out
  {
  }
}
