/** What every step of the session manager keeps, whatever the interleaving. */
module SessionInvariant {
  import opened Common
  import opened Session

  // ---- The invariant -------------------------------------------------------

  /** Shape of the tables: one controller, a duplicate-free queue within its bounds, dead entries emptied. */
  ghost predicate Tables<C(!new)>(s: State<C>) {
    && s.Sound()
    && (forall i, j :: 0 <= i < j < |s.queue| ==> s.queue[i] != s.queue[j])
    && (s.active.Some? ==> s.active.value !in s.queue)
    && (s.active.None? ==> s.queue == [])
    && (s.cfg.policy == PolicyReject ==> s.queue == [])
    && (s.cfg.maxQueueDepth > 0 ==> |s.queue| <= s.cfg.maxQueueDepth)
    && (forall e :: 0 <= e < |s.entries| && !s.Live(e) ==> s.entries[e].cancelled && s.entries[e].gates == [])
  }

  /** An open gate sits on its viewer's earliest entry, and a passed check still holds. */
  ghost predicate GateOk<C(!new)>(s: State<C>, g: nat)
    requires s.Sound() && g < |s.gates|
  {
    var gate := s.gates[g];
    && gate.closes == (if gate.closed then 1 else 0)
    && (!gate.closed ==> Holds(s, gate.viewer, g))
    && (!gate.closed && gate.pc.Decided? && gate.pc.isActive ==> s.Controller() == Some(gate.viewer))
  }

  ghost predicate Holds<C(!new)>(s: State<C>, viewer: string, g: nat)
    requires s.Sound()
  {
    FindEntry(s, viewer).Some? && g in s.entries[FindEntry(s, viewer).value].gates
  }

  ghost predicate Gates<C(!new)>(s: State<C>)
    requires s.Sound()
  {
    && (forall g :: 0 <= g < |s.gates| ==> GateOk(s, g))
    && (forall i :: 0 <= i < |s.hist.sent| ==>
          var r := s.hist.sent[i]; r.gate < |s.gates| && r.controller == Some(s.gates[r.gate].viewer))
  }

  /** The controller as a listener reconstructs it; None when the events do not alternate. */
  ghost function Replay(events: seq<Event>): Option<Option<string>> {
    if events == [] then Some(None) else
    var before, ev := Replay(events[..|events| - 1]), events[|events| - 1];
    if before.None? then None
    else match ev
      case Granted(v, _) => if before.value.None? then Some(Some(v)) else None
      case Ended(v, _) => if before.value == Some(v) then Some(None) else None
      case Queued(_, _) => before
      case Tick(_) => before
  }

  ghost predicate Channels<C(!new)>(s: State<C>)
    requires s.Sound()
  {
    && Replay(s.hist.events).Some?
    && (!s.stopped ==> Replay(s.hist.events) == Some(s.Controller()))
    && (s.eventsClosed ==> s.stopped)
    && s.subscribers !! s.closedSubscribers
  }

  /** Tickets of the waiting entries, front first. */
  ghost function WaitingTickets(entries: seq<Entry>, queue: seq<nat>): seq<nat>
    requires forall i :: 0 <= i < |queue| ==> queue[i] < |entries|
  {
    seq(|queue|, i requires 0 <= i < |queue| => entries[queue[i]].ticket)
  }

  /** The accepted tickets in order, minus the released ones. */
  ghost predicate Line(line: seq<nat>, tickets: nat, released: set<nat>) {
    && (forall i, j :: 0 <= i < j < |line| ==> line[i] < line[j])
    && (forall t: nat :: t in released ==> t < tickets)
    && (forall t: nat :: t in line <==> t < tickets && t !in released)
  }

  /** Grants so far, followed by the queue. */
  ghost predicate Order<C(!new)>(s: State<C>)
    requires s.Sound()
  {
    Line(s.hist.grants + WaitingTickets(s.entries, s.queue), s.hist.tickets, s.hist.released)
  }

  ghost predicate Disjoint(a: seq<nat>, b: seq<nat>) { forall g :: g in a ==> g !in b }

  /** A gate is listed on at most one entry. */
  ghost predicate Lists(entries: seq<Entry>) {
    forall e, f :: 0 <= e < |entries| && 0 <= f < |entries| && e != f ==> Disjoint(entries[e].gates, entries[f].gates)
  }

  ghost predicate Inv<C(!new)>(s: State<C>) {
    Tables(s) && Gates(s) && Lists(s.entries) && Channels(s) && Order(s)
  }

  // ---- Lookup --------------------------------------------------------------

  lemma {:induction false} FindInSame(a: seq<Entry>, b: seq<Entry>, queue: seq<nat>, v: string)
    requires forall i :: 0 <= i < |queue| ==> queue[i] < |a| && queue[i] < |b|
    requires forall i :: 0 <= i < |queue| ==> a[queue[i]].Viewer() == b[queue[i]].Viewer()
    ensures FindIn(a, queue, v) == FindIn(b, queue, v)
  {
    if queue != [] {
      FindInSame(a, b, queue[1..], v);
    }
  }

  lemma {:induction false} FindInAppend(entries: seq<Entry>, queue: seq<nat>, e: nat, v: string)
    requires forall i :: 0 <= i < |queue| ==> queue[i] < |entries|
    requires e < |entries|
    ensures FindIn(entries, queue + [e], v) ==
            if FindIn(entries, queue, v).Some? then FindIn(entries, queue, v)
            else if entries[e].Viewer() == v then Some(e) else None
  {
    if queue != [] {
      assert (queue + [e])[1..] == queue[1..] + [e];
      FindInAppend(entries, queue[1..], e, v);
    }
  }

  lemma {:induction false} FindInWithout(entries: seq<Entry>, queue: seq<nat>, e: nat, v: string)
    requires forall i :: 0 <= i < |queue| ==> queue[i] < |entries|
    requires FindIn(entries, queue, v) != Some(e)
    ensures forall i :: 0 <= i < |Without(queue, e)| ==> Without(queue, e)[i] < |entries|
    ensures FindIn(entries, Without(queue, e), v) == FindIn(entries, queue, v)
  {
    if queue != [] && queue[0] != e {
      assert ([queue[0]] + Without(queue[1..], e))[1..] == Without(queue[1..], e);
      if entries[queue[0]].Viewer() != v {
        FindInWithout(entries, queue[1..], e, v);
      } else {
        WithoutBounded(queue[1..], e, |entries|);
      }
    } else if queue != [] {
      assert forall i :: 0 <= i < |queue[1..]| ==> queue[1..][i] == queue[i + 1];
    }
  }

  lemma WithoutBounded(queue: seq<nat>, e: nat, n: nat)
    requires forall i :: 0 <= i < |queue| ==> queue[i] < n
    ensures forall i :: 0 <= i < |Without(queue, e)| ==> Without(queue, e)[i] < n
  {
    forall i | 0 <= i < |Without(queue, e)|
      ensures Without(queue, e)[i] < n
    {
      assert Without(queue, e)[i] in queue;
    }
  }

  lemma {:induction false} WithoutIndex(queue: seq<nat>, e: nat) returns (k: nat)
    requires e in queue
    ensures k < |queue| && queue[k] == e && Without(queue, e) == queue[..k] + queue[k + 1..]
  {
    if queue[0] == e {
      k := 0;
    } else {
      var j := WithoutIndex(queue[1..], e);
      k := j + 1;
      assert [queue[0]] + queue[1..][..j] == queue[..k];
      assert queue[1..][j + 1..] == queue[k + 1..];
    }
  }

  // ---- Each step keeps the tables ------------------------------------------

  lemma TerminateTables<C(!new)>(s: State<C>, e: nat)
    requires s.Sound() && e < |s.entries|
    ensures var s' := Terminate(s, e);
            && s'.Sound() && |s'.entries| == |s.entries| && |s'.gates| == |s.gates|
            && (forall f :: 0 <= f < |s.entries| && f != e ==> s'.entries[f] == s.entries[f])
            && s'.entries[e].cancelled && s'.entries[e].gates == []
            && s'.entries[e].claims == s.entries[e].claims && s'.entries[e].ticket == s.entries[e].ticket
  {
  }

  lemma ClaimTables<C(!new)>(s: State<C>, verified: Option<Claims>)
    requires Tables(s)
    ensures Tables(Claim(s, verified))
  {
    var s' := Claim(s, verified);
    if s' != s {
      forall e | 0 <= e < |s'.entries| && !s'.Live(e)
        ensures s'.entries[e].cancelled && s'.entries[e].gates == []
      {
        assert e < |s.entries| && !s.Live(e);
      }
    }
  }

  lemma ReleaseTables<C(!new)>(s: State<C>, e: nat)
    requires Tables(s) && e < |s.entries|
    ensures Tables(Release(s, e))
  {
    if s.active != Some(e) && e in s.queue {
      WithoutKeeps(s.queue, e);
      WithoutBounded(s.queue, e, |s.entries|);
      TerminateTables(s, e);
      var s' := Release(s, e);
      assert forall f :: s.Live(f) && f != e ==> s'.Live(f);
    }
  }

  lemma WithoutKeeps(queue: seq<nat>, e: nat)
    requires e in queue
    requires forall i, j :: 0 <= i < j < |queue| ==> queue[i] != queue[j]
    ensures var r := Without(queue, e);
            && (forall i, j :: 0 <= i < j < |r| ==> r[i] != r[j])
            && (forall f :: f in queue && f != e ==> f in r) && e !in r && |r| == |queue| - 1
  {
    hide Without;
    var k := WithoutIndex(queue, e);
    var r := Without(queue, e);
    forall f | f in queue && f != e
      ensures f in r
    {
      var i :| 0 <= i < |queue| && queue[i] == f;
      assert r[if i < k then i else i - 1] == f;
    }
  }

  lemma EndTables<C(!new)>(s: State<C>, e: nat, kind: EndKind)
    requires Tables(s)
    ensures Tables(EndSession(s, e, kind))
  {
    if s.active == Some(e) {
      TerminateTables(s, e);
      if s.queue != [] {
        var s1 := Emit(Terminate(s, e).(active := None), Ended(s.entries[e].Viewer(), kind));
        PromoteTables(s1);
      }
    }
  }

  lemma PromoteTables<C(!new)>(s: State<C>)
    requires s.Sound() && s.active.None? && |s.queue| > 0
    requires forall i, j :: 0 <= i < j < |s.queue| ==> s.queue[i] != s.queue[j]
    requires s.cfg.policy == PolicyQueue && (s.cfg.maxQueueDepth > 0 ==> |s.queue| <= s.cfg.maxQueueDepth)
    requires forall f :: 0 <= f < |s.entries| && f !in s.queue ==> s.entries[f].cancelled && s.entries[f].gates == []
    ensures Tables(Promote(s))
  {
    var s' := Promote(s);
    assert s.queue == [s.queue[0]] + s.queue[1..];
    forall f | 0 <= f < |s'.entries| && !s'.Live(f)
      ensures s'.entries[f].cancelled && s'.entries[f].gates == []
    {
      assert f < |s.entries| && (f in s.queue ==> f == s.queue[0]);
    }
  }

  lemma OpenGateTables<C(!new)>(s: State<C>, viewer: string)
    requires Tables(s)
    ensures Tables(OpenGate(s, viewer))
  {
  }

  /** After TerminateAll: the listed entries are emptied, their gates closed, the rest untouched. */
  lemma {:induction false} TerminateAllEffect<C(!new)>(s: State<C>, es: seq<nat>)
    requires s.Sound() && forall i :: 0 <= i < |es| ==> es[i] < |s.entries|
    ensures var s' := TerminateAll(s, es);
            && s'.Sound() && s' == s.(entries := s'.entries, gates := s'.gates)
            && |s'.entries| == |s.entries| && |s'.gates| == |s.gates|
    ensures var s' := TerminateAll(s, es);
            forall f :: 0 <= f < |s.entries| ==>
              && s'.entries[f].claims == s.entries[f].claims && s'.entries[f].ticket == s.entries[f].ticket
              && (f in es ==> s'.entries[f].cancelled && s'.entries[f].gates == [])
              && (f !in es ==> s'.entries[f] == s.entries[f])
    ensures var s' := TerminateAll(s, es);
            forall g :: 0 <= g < |s.gates| ==> s'.gates[g] == s.gates[g] || s'.gates[g] == s.gates[g].Close()
    ensures var s' := TerminateAll(s, es);
            forall f, g :: f in es && g in s.entries[f].gates && g < |s.gates| ==> s'.gates[g].closed
    decreases |es|
  {
    if es != [] {
      TerminateTables(s, es[0]);
      TerminateAllEffect(Terminate(s, es[0]), es[1..]);
    }
  }

  lemma ShutdownEffect<C(!new)>(s: State<C>)
    requires s.Sound()
    ensures var s' := Shutdown(s);
            && s'.Sound() && s' == s.(stopped := true, entries := s'.entries, gates := s'.gates)
            && |s'.entries| == |s.entries| && |s'.gates| == |s.gates|
            && forall f :: 0 <= f < |s.entries| ==>
                 && s'.entries[f].claims == s.entries[f].claims && s'.entries[f].ticket == s.entries[f].ticket
                 && (s'.entries[f] == s.entries[f] || (s'.entries[f].cancelled && s'.entries[f].gates == []))
  {
    TerminateAllEffect(s.(stopped := true), (if s.active.Some? then [s.active.value] else []) + s.queue);
  }

  lemma ShutdownTables<C(!new)>(s: State<C>)
    requires Tables(s)
    ensures Tables(Shutdown(s))
  {
    ShutdownEffect(s);
  }

  // ---- Each step keeps the gates -------------------------------------------

  lemma ClaimGates<C(!new)>(s: State<C>, verified: Option<Claims>)
    requires Tables(s) && Gates(s)
    ensures Tables(Claim(s, verified)) && Gates(Claim(s, verified))
  {
    ClaimTables(s, verified);
    var s' := Claim(s, verified);
    if s' != s {
      forall g | 0 <= g < |s.gates|
        ensures GateOk(s', g)
      {
        assert GateOk(s, g);
        if s.active.Some? {
          FindInSame(s.entries, s'.entries, s.queue, s.gates[g].viewer);
          FindInAppend(s'.entries, s.queue, |s.entries|, s.gates[g].viewer);
        }
      }
    }
  }

  lemma ReleaseGates<C(!new)>(s: State<C>, e: nat)
    requires Tables(s) && Gates(s) && e < |s.entries|
    ensures Tables(Release(s, e)) && Gates(Release(s, e))
  {
    ReleaseTables(s, e);
    var s' := Release(s, e);
    if s.active != Some(e) && e in s.queue {
      forall g | 0 <= g < |s.gates|
        ensures GateOk(s', g)
      {
        assert GateOk(s, g);
        ReleaseGate(s, e, g);
      }
    }
  }

  lemma ReleaseGate<C(!new)>(s: State<C>, e: nat, g: nat)
    requires s.Sound() && g < |s.gates| && GateOk(s, g) && e < |s.entries| && e in s.queue && s.active != Some(e)
    requires Release(s, e).Sound()
    ensures GateOk(Release(s, e), g)
  {
    var s' := Release(s, e);
    var v := s.gates[g].viewer;
    ReleaseEffect(s, e);
    if !s'.gates[g].closed {
      hide Release;
      assert g !in s.entries[e].gates;
      if s.Controller() != Some(v) {
        FindInWithout(s.entries, s.queue, e, v);
        FindInSame(s.entries, s'.entries, s'.queue, v);
      }
    }
  }

  lemma ReleaseEffect<C(!new)>(s: State<C>, e: nat)
    requires s.Sound() && e < |s.entries| && e in s.queue && s.active != Some(e)
    ensures var s' := Release(s, e);
            && s'.active == s.active && s'.stopped == s.stopped && s'.queue == Without(s.queue, e)
            && |s'.entries| == |s.entries| && (forall f :: 0 <= f < |s.entries| && f != e ==> s'.entries[f] == s.entries[f])
            && s'.entries[e].Viewer() == s.entries[e].Viewer()
            && s'.gates == Closed(s.gates, s.entries[e].gates)
  {
  }

  lemma EndGates<C(!new)>(s: State<C>, e: nat, kind: EndKind)
    requires Tables(s) && Gates(s)
    ensures Tables(EndSession(s, e, kind)) && Gates(EndSession(s, e, kind))
  {
    EndTables(s, e, kind);
    var s' := EndSession(s, e, kind);
    if s.active == Some(e) {
      forall g | 0 <= g < |s.gates|
        ensures GateOk(s', g)
      {
        assert GateOk(s, g);
        EndGate(s, e, kind, g);
      }
    }
  }

  /** A gate open across the end of a session belongs to a waiting viewer; the head's gates move to its new entry. */
  lemma EndGate<C(!new)>(s: State<C>, e: nat, kind: EndKind, g: nat)
    requires s.Sound() && g < |s.gates| && GateOk(s, g) && s.active == Some(e)
    requires EndSession(s, e, kind).Sound()
    ensures GateOk(EndSession(s, e, kind), g)
  {
    var s' := EndSession(s, e, kind);
    var v := s.gates[g].viewer;
    if !s'.gates[g].closed {
      var s1 := Emit(Terminate(s, e).(active := None), Ended(s.entries[e].Viewer(), kind));
      assert g !in s.entries[e].gates && s.Controller() != Some(v);
      hide Terminate;
      TerminateTables(s, e);
      FindInSame(s.entries, s1.entries, s.queue, v);
      PromoteGate(s1, v, g);
    }
  }

  lemma PromoteGate<C(!new)>(s: State<C>, v: string, g: nat)
    requires s.Sound()
    requires FindIn(s.entries, s.queue, v).Some? && g in s.entries[FindIn(s.entries, s.queue, v).value].gates
    ensures Promote(s).Sound() && Holds(Promote(s), v, g)
  {
    var s' := Promote(s);
    assert s.queue == [s.queue[0]] + s.queue[1..];
    if s.entries[s.queue[0]].Viewer() != v {
      FindInSame(s.entries, s'.entries, s.queue[1..], v);
    }
  }

  lemma FindEntrySame<C(!new)>(s: State<C>, s': State<C>, v: string)
    requires s.Sound() && s'.Sound() && s'.active == s.active && s'.queue == s.queue
    requires |s.entries| <= |s'.entries|
    requires forall e :: 0 <= e < |s.entries| ==> s'.entries[e].Viewer() == s.entries[e].Viewer()
    ensures FindEntry(s', v) == FindEntry(s, v)
  {
    FindInSame(s.entries, s'.entries, s.queue, v);
  }

  lemma OpenGateGates<C(!new)>(s: State<C>, viewer: string)
    requires Tables(s) && Gates(s)
    ensures Tables(OpenGate(s, viewer)) && Gates(OpenGate(s, viewer))
  {
    OpenGateTables(s, viewer);
    var s' := OpenGate(s, viewer);
    forall g | 0 <= g < |s.gates|
      ensures GateOk(s', g)
    {
      assert GateOk(s, g);
      OpenGateOld(s, viewer, g);
    }
    OpenGateNew(s, viewer);
  }

  lemma OpenGateNew<C(!new)>(s: State<C>, viewer: string)
    requires Tables(s) && OpenGate(s, viewer).Sound()
    ensures GateOk(OpenGate(s, viewer), |s.gates|)
  {
    FindEntrySame(s, OpenGate(s, viewer), viewer);
  }

  lemma OpenGateOld<C(!new)>(s: State<C>, viewer: string, g: nat)
    requires Tables(s) && OpenGate(s, viewer).Sound() && g < |s.gates| && GateOk(s, g)
    ensures GateOk(OpenGate(s, viewer), g)
  {
    FindEntrySame(s, OpenGate(s, viewer), s.gates[g].viewer);
    OldGate(s, OpenGate(s, viewer), g);
  }

  lemma OldGate<C(!new)>(s: State<C>, s': State<C>, g: nat)
    requires s.Sound() && s'.Sound() && |s.entries| == |s'.entries| && s'.Controller() == s.Controller()
    requires g < |s.gates| && g < |s'.gates| && s'.gates[g] == s.gates[g] && GateOk(s, g)
    requires FindEntry(s', s.gates[g].viewer) == FindEntry(s, s.gates[g].viewer)
    requires forall e :: 0 <= e < |s.entries| ==> s.entries[e].gates <= s'.entries[e].gates
    ensures GateOk(s', g)
  {
  }

  /** The entry that carries an open gate is live, so shutdown terminates it. */
  lemma ShutdownGate<C(!new)>(s: State<C>, g: nat)
    requires s.Sound() && g < |s.gates| && GateOk(s, g)
    ensures |Shutdown(s).gates| == |s.gates|
    ensures Shutdown(s).gates[g] == s.gates[g].Close()
  {
    var live := (if s.active.Some? then [s.active.value] else []) + s.queue;
    TerminateAllEffect(s.(stopped := true), live);
    if !s.gates[g].closed {
      var f := FindEntry(s, s.gates[g].viewer).value;
      assert f in live && g in s.entries[f].gates;
    }
  }

  lemma ShutdownGates<C(!new)>(s: State<C>)
    requires Tables(s) && Gates(s)
    ensures Tables(Shutdown(s)) && Gates(Shutdown(s))
    ensures |Shutdown(s).gates| == |s.gates|
    ensures forall g :: 0 <= g < |s.gates| ==> Shutdown(s).gates[g].closed
  {
    ShutdownTables(s);
    ShutdownEffect(s);
    hide Shutdown, Tables, GateOk;
    var s' := Shutdown(s);
    forall g | 0 <= g < |s.gates|
      ensures GateOk(s', g) && s'.gates[g].closed && s'.gates[g].viewer == s.gates[g].viewer
    {
      ShutdownGateOk(s, g);
    }
  }

  lemma ShutdownGateOk<C(!new)>(s: State<C>, g: nat)
    requires s.Sound() && Shutdown(s).Sound() && g < |s.gates| && GateOk(s, g)
    ensures |Shutdown(s).gates| == |s.gates| && GateOk(Shutdown(s), g)
    ensures Shutdown(s).gates[g].closed && Shutdown(s).gates[g].viewer == s.gates[g].viewer
  {
    ShutdownGate(s, g);
    hide Shutdown;
  }

  /** A goroutine's step rewrites its own gate and may record one sent command. */
  lemma OneGate<C(!new)>(s: State<C>, g: nat, gate: Gate<C>, sent: seq<Sent<C>>)
    requires Inv(s) && g < |s.gates|
    requires gate.viewer == s.gates[g].viewer && gate.closes == (if gate.closed then 1 else 0)
    requires s.gates[g].closed ==> gate.closed
    requires !gate.closed && gate.pc.Decided? && gate.pc.isActive ==> s.Controller() == Some(gate.viewer)
    requires sent == s.hist.sent || exists c :: sent == s.hist.sent + [Sent(g, c, Some(gate.viewer))]
    ensures var s' := s.(gates := s.gates[g := gate], hist := s.hist.(sent := sent)); Inv(s')
  {
    var s' := s.(gates := s.gates[g := gate], hist := s.hist.(sent := sent));
    forall h | 0 <= h < |s.gates|
      ensures GateOk(s', h)
    {
      assert GateOk(s, h);
    }
  }

  lemma ReceiveInv<C(!new)>(s: State<C>, g: nat, cmd: C)
    requires Inv(s) && g < |s.gates|
    ensures Inv(GateReceive(s, g, cmd))
  {
    assert GateOk(s, g);
    OneGate(s, g, GateReceive(s, g, cmd).gates[g], s.hist.sent);
  }

  lemma CheckInv<C(!new)>(s: State<C>, g: nat)
    requires Inv(s) && g < |s.gates|
    ensures Inv(GateCheck(s, g))
  {
    assert GateOk(s, g);
    OneGate(s, g, GateCheck(s, g).gates[g], s.hist.sent);
  }

  lemma TakeInv<C(!new)>(s: State<C>, g: nat)
    requires Inv(s) && g < |s.gates|
    ensures Inv(GateTake(s, g))
  {
    assert GateOk(s, g);
    OneGate(s, g, GateTake(s, g).gates[g], s.hist.sent);
  }

  lemma ExitInv<C(!new)>(s: State<C>, g: nat)
    requires Inv(s) && g < |s.gates|
    ensures Inv(GateExit(s, g))
  {
    assert GateOk(s, g);
    OneGate(s, g, GateExit(s, g).gates[g], s.hist.sent);
  }

  /** The gate is open, so it sits on the active entry, so its viewer is still in control. */
  lemma SendInv<C(!new)>(s: State<C>, g: nat)
    requires Inv(s) && g < |s.gates|
    ensures Inv(GateSend(s, g))
  {
    assert GateOk(s, g);
    var s' := GateSend(s, g);
    if s'.hist.sent == s.hist.sent {
      OneGate(s, g, s'.gates[g], s.hist.sent);
    } else {
      OneGate(s, g, s'.gates[g], s.hist.sent + [Sent(g, s.gates[g].pc.cmd, Some(s.gates[g].viewer))]);
    }
  }

  // ---- Each step keeps the events and the order ----------------------------

  lemma ClaimChannels<C(!new)>(s: State<C>, verified: Option<Claims>)
    requires Tables(s) && Tables(Claim(s, verified)) && Channels(s)
    ensures Channels(Claim(s, verified))
  {
    var s' := Claim(s, verified);
    if s' != s && !s.stopped {
      assert s'.hist.events[..|s.hist.events|] == s.hist.events;
    }
  }

  lemma EndChannels<C(!new)>(s: State<C>, e: nat, kind: EndKind)
    requires Tables(s) && Tables(EndSession(s, e, kind)) && Channels(s)
    ensures Channels(EndSession(s, e, kind))
  {
    if s.active == Some(e) {
      var s1 := Emit(Terminate(s, e).(active := None), Ended(s.entries[e].Viewer(), kind));
      if !s.stopped {
        assert s1.hist.events[..|s.hist.events|] == s.hist.events;
        assert Replay(s1.hist.events) == Some(None);
        if s.queue != [] {
          assert Promote(s1).hist.events[..|s1.hist.events|] == s1.hist.events;
        }
      }
    }
  }

  lemma TickChannels<C(!new)>(s: State<C>, v: string)
    requires Tables(s) && Channels(s)
    ensures Tables(Emit(s, Tick(v))) && Channels(Emit(s, Tick(v)))
  {
    if !s.stopped {
      assert Emit(s, Tick(v)).hist.events[..|s.hist.events|] == s.hist.events;
    }
  }

  lemma LineSnoc(line: seq<nat>, tickets: nat, released: set<nat>)
    requires Line(line, tickets, released)
    ensures Line(line + [tickets], tickets + 1, released)
  {
    assert forall i :: 0 <= i < |line| ==> line[i] in line;
  }

  lemma LineRemove(line: seq<nat>, tickets: nat, released: set<nat>, j: nat)
    requires Line(line, tickets, released) && j < |line|
    ensures Line(line[..j] + line[j + 1..], tickets, released + {line[j]})
  {
    var r := line[..j] + line[j + 1..];
    assert line[j] in line;
    forall t | t in line && t != line[j]
      ensures t in r
    {
      var i :| 0 <= i < |line| && line[i] == t;
      assert r[if i < j then i else i - 1] == t;
    }
    forall i | 0 <= i < |r|
      ensures r[i] in line && r[i] != line[j]
    {
      assert r[i] == line[if i < j then i else i + 1];
    }
  }

  lemma DropAt(g: seq<nat>, w: seq<nat>, k: nat)
    requires k < |w|
    ensures (g + w)[..|g| + k] + (g + w)[|g| + k + 1..] == g + (w[..k] + w[k + 1..])
  {
  }

  lemma ClaimOrder<C(!new)>(s: State<C>, verified: Option<Claims>)
    requires Tables(s) && Tables(Claim(s, verified)) && Order(s)
    ensures Order(Claim(s, verified))
  {
    var s' := Claim(s, verified);
    if s' != s {
      var line := s.hist.grants + WaitingTickets(s.entries, s.queue);
      LineSnoc(line, s.hist.tickets, s.hist.released);
      assert s'.hist.grants + WaitingTickets(s'.entries, s'.queue) == line + [s.hist.tickets];
    }
  }

  lemma WaitingSame(a: seq<Entry>, b: seq<Entry>, queue: seq<nat>)
    requires forall i :: 0 <= i < |queue| ==> queue[i] < |a| && queue[i] < |b|
    requires forall i :: 0 <= i < |queue| ==> a[queue[i]].ticket == b[queue[i]].ticket
    ensures WaitingTickets(a, queue) == WaitingTickets(b, queue)
  {
  }

  lemma WaitingWithout(entries: seq<Entry>, queue: seq<nat>, k: nat)
    requires forall i :: 0 <= i < |queue| ==> queue[i] < |entries|
    requires k < |queue|
    ensures WaitingTickets(entries, queue[..k] + queue[k + 1..]) == WaitingTickets(entries, queue)[..k] + WaitingTickets(entries, queue)[k + 1..]
  {
    var w, r := WaitingTickets(entries, queue), queue[..k] + queue[k + 1..];
    assert |WaitingTickets(entries, r)| == |w[..k] + w[k + 1..]|;
    assert forall i :: 0 <= i < |r| ==> WaitingTickets(entries, r)[i] == (w[..k] + w[k + 1..])[i];
  }

  lemma DropFromLine(grants: seq<nat>, a: seq<Entry>, b: seq<Entry>, queue: seq<nat>, e: nat) returns (j: nat)
    requires forall i :: 0 <= i < |queue| ==> queue[i] < |a|
    requires |a| == |b| && forall f :: 0 <= f < |a| ==> b[f].ticket == a[f].ticket
    requires e in queue
    ensures forall i :: 0 <= i < |Without(queue, e)| ==> Without(queue, e)[i] < |b|
    ensures var line := grants + WaitingTickets(a, queue);
            && j < |line| && line[j] == a[e].ticket
            && grants + WaitingTickets(b, Without(queue, e)) == line[..j] + line[j + 1..]
  {
    WithoutBounded(queue, e, |a|);
    var k := WithoutIndex(queue, e);
    j := |grants| + k;
    WaitingWithout(a, queue, k);
    WaitingSame(a, b, Without(queue, e));
    DropAt(grants, WaitingTickets(a, queue), k);
  }

  lemma ReleaseOrder<C(!new)>(s: State<C>, e: nat)
    requires Tables(s) && e < |s.entries| && Tables(Release(s, e)) && Order(s)
    ensures Order(Release(s, e))
  {
    if s.active != Some(e) && e in s.queue {
      var j := DropFromLine(s.hist.grants, s.entries, Release(s, e).entries, s.queue, e);
      LineRemove(s.hist.grants + WaitingTickets(s.entries, s.queue), s.hist.tickets, s.hist.released, j);
    }
  }

  lemma PromoteOrder<C(!new)>(s: State<C>)
    requires s.Sound() && |s.queue| > 0 && Promote(s).Sound() && Order(s)
    ensures Order(Promote(s))
  {
    var s' := Promote(s);
    var w := WaitingTickets(s.entries, s.queue);
    WaitingSame(s.entries, s'.entries, s.queue[1..]);
    assert w == [w[0]] + WaitingTickets(s.entries, s.queue[1..]);
    assert (s.hist.grants + [w[0]]) + WaitingTickets(s'.entries, s'.queue) == s.hist.grants + w;
  }

  lemma EndOrder<C(!new)>(s: State<C>, e: nat, kind: EndKind)
    requires Tables(s) && Tables(EndSession(s, e, kind)) && Order(s)
    ensures Order(EndSession(s, e, kind))
  {
    if s.active == Some(e) {
      var s1 := Emit(Terminate(s, e).(active := None), Ended(s.entries[e].Viewer(), kind));
      WaitingSame(s.entries, s1.entries, s.queue);
      if s.queue != [] {
        PromoteOrder(s1);
      }
    }
  }

  // ---- Each step keeps the gate lists apart --------------------------------

  lemma ListsShrink(a: seq<Entry>, b: seq<Entry>)
    requires Lists(a) && |a| <= |b|
    requires forall e :: 0 <= e < |a| ==> b[e].gates == a[e].gates || b[e].gates == []
    requires forall e :: |a| <= e < |b| ==> b[e].gates == []
    ensures Lists(b)
  {
    forall e, f | 0 <= e < |b| && 0 <= f < |b| && e != f
      ensures Disjoint(b[e].gates, b[f].gates)
    {
      if e < |a| && f < |a| {
        assert Disjoint(a[e].gates, a[f].gates);
      }
    }
  }

  lemma EndEntries<C(!new)>(s: State<C>, e: nat, kind: EndKind)
    requires s.Sound() && s.active == Some(e) && s.queue != [] && s.queue[0] != e
    ensures var a, b, n := s.entries, EndSession(s, e, kind).entries, s.queue[0];
            && |b| == |a| + 1 && b[|a|].gates == a[n].gates
            && forall f :: 0 <= f < |a| ==> b[f].gates == if f == e || f == n then [] else a[f].gates
  {
  }

  lemma MovedLists(a: seq<Entry>, b: seq<Entry>, e: nat, n: nat)
    requires Lists(a) && n < |a| && |b| == |a| + 1 && b[|a|].gates == a[n].gates
    requires forall f :: 0 <= f < |a| ==> b[f].gates == if f == e || f == n then [] else a[f].gates
    ensures Lists(b)
  {
    forall f | 0 <= f < |a|
      ensures Disjoint(b[f].gates, a[n].gates) && Disjoint(a[n].gates, b[f].gates)
    {
      if f != n {
        assert Disjoint(a[f].gates, a[n].gates) && Disjoint(a[n].gates, a[f].gates);
      }
    }
    ListsShrink(a, b[..|a|]);
    ListsSnoc(b[..|a|], b[|a|]);
    assert b == b[..|a|] + [b[|a|]];
  }

  lemma EndLists<C(!new)>(s: State<C>, e: nat, kind: EndKind)
    requires Tables(s) && Lists(s.entries)
    ensures Lists(EndSession(s, e, kind).entries)
  {
    if s.active == Some(e) {
      if s.queue == [] {
        ListsShrink(s.entries, EndSession(s, e, kind).entries);
      } else {
        EndEntries(s, e, kind);
        MovedLists(s.entries, EndSession(s, e, kind).entries, e, s.queue[0]);
      }
    }
  }

  lemma ListsSnoc(a: seq<Entry>, last: Entry)
    requires Lists(a)
    requires forall f :: 0 <= f < |a| ==> Disjoint(a[f].gates, last.gates) && Disjoint(last.gates, a[f].gates)
    ensures Lists(a + [last])
  {
    var b := a + [last];
    forall e, f | 0 <= e < |b| && 0 <= f < |b| && e != f
      ensures Disjoint(b[e].gates, b[f].gates)
    {
      if e < |a| && f < |a| {
        assert Disjoint(a[e].gates, a[f].gates);
      }
    }
  }

  lemma OpenGateLists<C(!new)>(s: State<C>, viewer: string)
    requires Tables(s) && Lists(s.entries)
    ensures Lists(OpenGate(s, viewer).entries)
  {
    var a, b := s.entries, OpenGate(s, viewer).entries;
    forall e, f | 0 <= e < |b| && 0 <= f < |b| && e != f
      ensures Disjoint(b[e].gates, b[f].gates)
    {
      assert Disjoint(a[e].gates, a[f].gates);
    }
  }

  // ---- Every run -----------------------------------------------------------

  lemma InitialInv<C(!new)>(cfg: Config)
    ensures Inv(Initial<C>(cfg))
  {
    var s := Initial<C>(cfg);
    assert s.hist.grants + WaitingTickets(s.entries, s.queue) == [];
    assert Replay(s.hist.events) == Some(None);
  }

  lemma ClaimInv<C(!new)>(s: State<C>, verified: Option<Claims>)
    requires Inv(s)
    ensures Inv(Claim(s, verified))
  {
    ClaimGates(s, verified);
    ClaimChannels(s, verified);
    ClaimOrder(s, verified);
    ListsShrink(s.entries, Claim(s, verified).entries);
  }

  lemma ReleaseInv<C(!new)>(s: State<C>, e: nat)
    requires Inv(s) && e < |s.entries|
    ensures Inv(Release(s, e))
  {
    ReleaseGates(s, e);
    ReleaseOrder(s, e);
    ListsShrink(s.entries, Release(s, e).entries);
  }

  lemma EndInv<C(!new)>(s: State<C>, e: nat, kind: EndKind)
    requires Inv(s)
    ensures Inv(EndSession(s, e, kind))
  {
    EndGates(s, e, kind);
    EndChannels(s, e, kind);
    EndOrder(s, e, kind);
    EndLists(s, e, kind);
  }

  lemma OpenGateInv<C(!new)>(s: State<C>, viewer: string)
    requires Inv(s)
    ensures Inv(OpenGate(s, viewer))
  {
    OpenGateGates(s, viewer);
    OpenGateLists(s, viewer);
    WaitingSame(s.entries, OpenGate(s, viewer).entries, s.queue);
  }

  lemma ShutdownInv<C(!new)>(s: State<C>)
    requires Inv(s)
    ensures Inv(Shutdown(s))
  {
    ShutdownGates(s);
    ShutdownEffect(s);
    WaitingSame(s.entries, Shutdown(s).entries, s.queue);
    ListsShrink(s.entries, Shutdown(s).entries);
  }

  /** A passed deadline moves nothing the invariant speaks of. */
  lemma DeadlineInv<C(!new)>(s: State<C>, e: nat)
    requires Inv(s)
    ensures Inv(Deadline(s, e))
  {
    if s.active == Some(e) {
      var t := Deadline(s, e);
      DeadlineTables(s, e);
      forall g | 0 <= g < |s.gates|
        ensures GateOk(t, g)
      {
        assert GateOk(s, g);
        FindEntrySame(s, t, s.gates[g].viewer);
        OldGate(s, t, g);
      }
      WaitingSame(s.entries, t.entries, s.queue);
      ListsShrink(s.entries, t.entries);
    }
  }

  lemma DeadlineTables<C(!new)>(s: State<C>, e: nat)
    requires Tables(s) && s.active == Some(e)
    ensures var t := Deadline(s, e);
            && Tables(t) && t.Controller() == s.Controller() && t == s.(entries := t.entries) && |t.entries| == |s.entries|
            && forall f :: 0 <= f < |s.entries| ==> t.entries[f] == s.entries[f].(expired := t.entries[f].expired)
  {
  }

  lemma TickInv<C(!new)>(s: State<C>, v: string)
    requires Inv(s)
    ensures Inv(Emit(s, Tick(v)))
  {
    TickChannels(s, v);
    var s' := Emit(s, Tick(v));
    forall g | 0 <= g < |s.gates|
      ensures GateOk(s', g)
    {
      assert GateOk(s, g);
    }
  }

  /** Closing the events channel and (un)subscribing touch nothing else. */
  lemma ListenerInv<C(!new)>(s: State<C>, closed: bool, subs: set<nat>, closedSubs: set<nat>)
    requires Inv(s) && (closed ==> s.stopped) && subs !! closedSubs
    ensures Inv(s.(eventsClosed := closed, subscribers := subs, closedSubscribers := closedSubs))
  {
    var s' := s.(eventsClosed := closed, subscribers := subs, closedSubscribers := closedSubs);
    forall g | 0 <= g < |s.gates|
      ensures GateOk(s', g)
    {
      assert GateOk(s, g);
    }
  }

  lemma CloseEventsInv<C(!new)>(s: State<C>)
    requires Inv(s)
    ensures Inv(CloseEvents(s))
  {
    ListenerInv(s, s.eventsClosed || s.stopped, s.subscribers, s.closedSubscribers);
  }

  lemma SubscribeInv<C(!new)>(s: State<C>, ch: nat)
    requires Inv(s)
    ensures Inv(Subscribe(s, ch))
  {
    ListenerInv(s, s.eventsClosed, Subscribe(s, ch).subscribers, s.closedSubscribers);
  }

  lemma UnsubscribeInv<C(!new)>(s: State<C>, ch: nat)
    requires Inv(s)
    ensures Inv(Unsubscribe(s, ch))
  {
    ListenerInv(s, s.eventsClosed, Unsubscribe(s, ch).subscribers, Unsubscribe(s, ch).closedSubscribers);
  }

  lemma InvSound<C(!new)>(s: State<C>)
    requires Inv(s)
    ensures s.Sound()
  {
  }

  /** The steps of a gate's goroutine and of its consumer. */
  ghost predicate GateStep<C>(step: Step<C>) {
    step.SReceive? || step.SCheck? || step.SSend? || step.STake? || step.SExit?
  }

  /** What a goroutine's step leaves alone. */
  lemma GateStepFrame<C(!new)>(s: State<C>, step: Step<C>)
    requires s.Sound() && GateStep(step)
    ensures var t := Next(s, step); t == s.(gates := t.gates, hist := s.hist.(sent := t.hist.sent)) && |t.gates| == |s.gates|
  {
  }

  /** The steps that concern listeners only. */
  ghost predicate ListenerStep<C>(step: Step<C>) {
    step.STick? || step.SCloseEvents? || step.SSubscribe? || step.SUnsubscribe?
  }

  lemma ListenerStepFrame<C(!new)>(s: State<C>, step: Step<C>)
    requires s.Sound() && ListenerStep(step)
    ensures var t := Next(s, step);
            && t.active == s.active && t.queue == s.queue && t.entries == s.entries && t.gates == s.gates
            && t.stopped == s.stopped && (s.stopped ==> t.hist == s.hist)
  {
  }

  lemma GateStepInv<C(!new)>(s: State<C>, step: Step<C>)
    requires Inv(s) && GateStep(step)
    ensures Inv(Next(s, step))
  {
    InvSound(s);
    hide Inv, GateReceive, GateCheck, GateSend, GateTake, GateExit, State.Sound;
    match step {
      case SReceive(g, cmd) => if g < |s.gates| { ReceiveInv(s, g, cmd); }
      case SCheck(g) => if g < |s.gates| { CheckInv(s, g); }
      case SSend(g) => if g < |s.gates| { SendInv(s, g); }
      case STake(g) => if g < |s.gates| { TakeInv(s, g); }
      case SExit(g) => if g < |s.gates| { ExitInv(s, g); }
    }
  }

  lemma ManagerStepInv<C(!new)>(s: State<C>, step: Step<C>)
    requires Inv(s) && !GateStep(step)
    ensures Inv(Next(s, step))
  {
    InvSound(s);
    hide Inv, Claim, Release, EndSession, Deadline, OpenGate, Emit, Shutdown, CloseEvents, Subscribe, Unsubscribe;
    match step {
      case SClaim(v) => ClaimInv(s, v);
      case SRelease(e) => if e < |s.entries| { ReleaseInv(s, e); }
      case SEnd(e, kind) => EndInv(s, e, kind);
      case SDeadline(e) => DeadlineInv(s, e);
      case SGate(v) => OpenGateInv(s, v);
      case STick(v) => TickInv(s, v);
      case SShutdown => ShutdownInv(s);
      case SCloseEvents => CloseEventsInv(s);
      case SSubscribe(ch) => SubscribeInv(s, ch);
      case SUnsubscribe(ch) => UnsubscribeInv(s, ch);
    }
  }

  /** Every step of every thread keeps the invariant. */
  lemma NextInv<C(!new)>(s: State<C>, step: Step<C>)
    requires Inv(s)
    ensures Inv(Next(s, step))
  {
    if GateStep(step) {
      GateStepInv(s, step);
    } else {
      ManagerStepInv(s, step);
    }
  }

  /** Any interleaving of the threads' steps. */
  ghost function Run<C(!new)>(s: State<C>, steps: seq<Step<C>>): State<C>
    decreases |steps|
  {
    if steps == [] || !s.Sound() then s else Run(Next(s, steps[0]), steps[1..])
  }

  lemma {:induction false} RunInv<C(!new)>(s: State<C>, steps: seq<Step<C>>)
    requires Inv(s)
    ensures Inv(Run(s, steps))
    decreases |steps|
  {
    if steps != [] {
      NextInv(s, steps[0]);
      RunInv(Next(s, steps[0]), steps[1..]);
    }
  }
}
