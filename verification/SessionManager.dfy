/** The manager itself: fields updated in place, one method per critical section, each proved to be its step. */
module SessionManager {
  import opened Common
  import opened Session

  lemma ClosedSnoc<C>(gates: seq<Gate<C>>, ids: seq<nat>, g: nat)
    requires g < |gates|
    ensures var c := Closed(gates, ids); Closed(gates, ids + [g]) == c[g := c[g].Close()]
  {
  }

  lemma {:induction false} TerminateAllSnoc<C(!new)>(s: State<C>, es: seq<nat>, e: nat)
    requires (forall i :: 0 <= i < |es| ==> es[i] < |s.entries|) && e < |s.entries|
    ensures |TerminateAll(s, es).entries| == |s.entries|
    ensures TerminateAll(s, es + [e]) == Terminate(TerminateAll(s, es), e)
    decreases |es|
  {
    if es != [] {
      assert (es + [e])[1..] == es[1..] + [e];
      TerminateAllSnoc(Terminate(s, es[0]), es[1..], e);
    }
  }

  lemma TerminateSound<C(!new)>(s: State<C>, e: nat)
    requires s.Sound() && e < |s.entries|
    ensures Terminate(s, e).Sound() && |Terminate(s, e).entries| == |s.entries|
  {
  }

  lemma TerminateNone<C(!new)>(s: State<C>)
    ensures TerminateAll(s, []) == s
  {
  }

  lemma {:induction false} WithoutAt(queue: seq<nat>, e: nat, k: nat)
    requires k < |queue| && queue[k] == e && e !in queue[..k]
    ensures Without(queue, e) == queue[..k] + queue[k + 1..]
  {
    if k > 0 {
      assert queue[0] in queue[..k];
      assert queue[1..][..k - 1] == queue[1..k];
      WithoutAt(queue[1..], e, k - 1);
      assert [queue[0]] + (queue[1..][..k - 1] + queue[1..][k..]) == queue[..k] + queue[k + 1..];
    }
  }

  class Manager<C(!new, ==)> {
    const cfg: Config
    var active: Option<nat>
    var queue: seq<nat>
    var entries: seq<Entry>
    var gates: seq<Gate<C>>
    var stopped: bool
    var eventsClosed: bool
    var subscribers: set<nat>
    var closedSubscribers: set<nat>
    var hist: History<C>

    ghost function View(): State<C>
      reads this
    {
      State(cfg, active, queue, entries, gates, stopped, eventsClosed, subscribers, closedSubscribers, hist)
    }

    constructor (cfg: Config)
      ensures View() == Initial(cfg)
    {
      this.cfg := cfg;
      active, queue, entries, gates := None, [], [], [];
      stopped, eventsClosed, subscribers, closedSubscribers := false, false, {}, {};
      hist := History([], 0, [], {}, []);
    }

    method FindEntryLocked(viewer: string) returns (r: Option<nat>)
      requires View().Sound()
      ensures r == FindEntry(View(), viewer)
    {
      if active.Some? && entries[active.value].Viewer() == viewer {
        return active;
      }
      var i := 0;
      while i < |queue|
        invariant i <= |queue|
        invariant FindIn(entries, queue, viewer) == FindIn(entries, queue[i..], viewer)
      {
        if entries[queue[i]].Viewer() == viewer {
          return Some(queue[i]);
        }
        i := i + 1;
      }
      return None;
    }

    method EmitEvent(ev: Event)
      modifies this`hist
      ensures View() == Emit(old(View()), ev)
    {
      if stopped {
        return;
      }
      hist := hist.(events := hist.events + [ev]);
    }

    /** cancel and closeGates. */
    method TerminateEntry(e: nat)
      requires View().Sound() && e < |entries|
      modifies this`entries, this`gates
      ensures View() == Terminate(old(View()), e)
    {
      entries := entries[e := entries[e].(cancelled := true)];
      entries := entries[e := entries[e].(gatesDone := true)];
      var list := entries[e].gates;
      ghost var emptied := entries;
      for i := 0 to |list|
        invariant entries == emptied
        invariant gates == Closed(old(gates), list[..i])
      {
        var h := list[i];
        ClosedSnoc(old(gates), list[..i], h);
        assert list[..i + 1] == list[..i] + [h];
        gates := gates[h := gates[h].Close()];
      }
      assert list[..|list|] == list;
      entries := entries[e := entries[e].(gates := [])];
    }

    method StartSessionLocked(claims: Claims, ticket: nat) returns (entry: nat)
      modifies this`entries, this`active, this`hist
      ensures entry == |old(entries)|
      ensures View() == Start(old(View()), claims, ticket, [])
    {
      entry := |entries|;
      entries := entries + [Entry(claims, ticket, false, false, [], false)];
      active := Some(entry);
      hist := hist.(grants := hist.grants + [ticket]);
      EmitEvent(Granted(claims.viewerID, claims.sessionSeconds));
    }

    method EnqueueLocked(claims: Claims, ticket: nat) returns (entry: nat)
      modifies this`entries, this`queue, this`hist
      ensures entry == |old(entries)|
      ensures View() == Emit(old(View()).(entries := old(entries) + [Entry(claims, ticket, false, false, [], false)],
                                          queue := old(queue) + [entry]),
                             Queued(claims.viewerID, |old(queue)| + 1))
    {
      entry := |entries|;
      entries := entries + [Entry(claims, ticket, false, false, [], false)];
      queue := queue + [entry];
      EmitEvent(Queued(claims.viewerID, |queue|));
    }

    method Claim(verified: Option<Claims>) returns (r: ClaimResult)
      modifies this
      ensures r == ClaimOutcome(old(View()), verified)
      ensures View() == Session.Claim(old(View()), verified)
      ensures r.InvalidToken? <==> verified.None?
      ensures r.RoomMismatch? <==> verified.Some? && verified.value.roomID != cfg.roomID
    {
      if verified.None? {
        return InvalidToken;
      }
      var claims := verified.value;
      if claims.roomID != cfg.roomID {
        return RoomMismatch;
      }
      if active.Some? && cfg.policy == PolicyReject {
        return ControllerActive;
      }
      if active.Some? && cfg.maxQueueDepth > 0 && |queue| >= cfg.maxQueueDepth {
        return QueueFull;
      }
      var ticket := hist.tickets;
      hist := hist.(tickets := ticket + 1);
      var entry;
      if active.None? {
        entry := StartSessionLocked(claims, ticket);
      } else {
        entry := EnqueueLocked(claims, ticket);
      }
      return ClaimResult.Session(entry);
    }

    /** Release's locked part: find the entry in the queue, cut it out, terminate it. */
    method ReleaseLocked(e: nat) returns (wasActive: bool)
      requires View().Sound() && e < |entries|
      modifies this
      ensures wasActive <==> old(active) == Some(e)
      ensures View() == Release(old(View()), e)
    {
      if active == Some(e) {
        return true;
      }
      for i := 0 to |queue|
        invariant View() == old(View()) && e !in queue[..i]
      {
        if queue[i] == e {
          WithoutAt(queue, e, i);
          hist := hist.(released := hist.released + {entries[e].ticket});
          queue := queue[..i] + queue[i + 1..];
          TerminateEntry(e);
          return false;
        }
      }
      assert queue[..|queue|] == queue;
      return false;
    }

    method EndSession(e: nat, kind: EndKind)
      requires View().Sound()
      modifies this
      ensures View() == Session.EndSession(old(View()), e, kind)
    {
      if active.None? || active.value != e {
        return;
      }
      TerminateEntry(e);
      active := None;
      EmitEvent(Ended(entries[e].Viewer(), kind));
      if |queue| > 0 {
        PromoteNext();
      }
    }

    /** endSession's second half: a fresh entry for the head of the queue, then its gates. */
    method PromoteNext()
      requires View().Sound() && |queue| > 0
      modifies this
      ensures View() == Promote(old(View()))
    {
      var n := queue[0];
      queue := queue[1..];
      entries := entries[n := entries[n].(cancelled := true)];
      var nextSess := StartSessionLocked(entries[n].claims, entries[n].ticket);
      entries := entries[nextSess := entries[nextSess].(gates := entries[n].gates)];
      entries := entries[n := entries[n].(gates := [])];
      assert entries == Promote(old(View())).entries;
    }

    method Gate(viewer: string) returns (handle: nat)
      requires View().Sound()
      modifies this`entries, this`gates
      ensures handle == |old(gates)|
      ensures View() == OpenGate(old(View()), viewer)
    {
      handle := |gates|;
      var found := FindEntryLocked(viewer);
      if found.Some? && !entries[found.value].gatesDone {
        gates := gates + [Session.Gate(viewer, false, 0, Waiting, [])];
        var e := found.value;
        entries := entries[e := entries[e].(gates := entries[e].gates + [handle])];
      } else {
        gates := gates + [Session.Gate(viewer, true, 1, Exited, [])];
      }
    }

    /** The goroutine's locked look at who is in control. */
    method CheckActive(g: nat)
      requires View().Sound() && g < |gates|
      modifies this`gates
      ensures View() == GateCheck(old(View()), g)
    {
      var gate := gates[g];
      if gate.pc.Holding? {
        var isActive := active.Some? && entries[active.value].Viewer() == gate.viewer;
        gates := gates[g := gate.(pc := Decided(gate.pc.cmd, isActive))];
      }
    }

    /** The goroutine's send under the handle's lock; a full buffer drops the command. */
    method ForwardIfOpen(g: nat)
      requires View().Sound() && g < |gates|
      modifies this`gates, this`hist
      ensures View() == GateSend(old(View()), g)
    {
      var gate := gates[g];
      if gate.pc.Decided? {
        var controller := if active.Some? then Some(entries[active.value].Viewer()) else None;
        gates := gates[g := gate.(pc := Waiting)];
        if gate.pc.isActive && !gate.closed && |gate.out| < GATE_BUFFER {
          gates := gates[g := gates[g].(out := gate.out + [gate.pc.cmd])];
          hist := hist.(sent := hist.sent + [Sent(g, gate.pc.cmd, controller)]);
        }
      }
    }

    method KickCurrentController()
      requires View().Sound()
      modifies this
      ensures View() == if old(active).None? then old(View())
                        else Session.EndSession(old(View()), old(active).value, IdleKicked)
    {
      var entry := active;
      if entry.Some? {
        EndSession(entry.value, IdleKicked);
      }
    }

    method TerminateQueue()
      requires View().Sound()
      modifies this`entries, this`gates
      ensures View() == TerminateAll(old(View()), queue)
    {
      hide Terminate, TerminateAll;
      TerminateNone(View());
      for i := 0 to |queue|
        invariant View().Sound() && |entries| == |old(entries)|
        invariant View() == TerminateAll(old(View()), queue[..i])
      {
        TerminateAllSnoc(old(View()), queue[..i], queue[i]);
        assert queue[..i + 1] == queue[..i] + [queue[i]];
        TerminateSound(View(), queue[i]);
        TerminateEntry(queue[i]);
      }
      assert queue[..|queue|] == queue;
    }

    method Run()
      requires View().Sound()
      modifies this
      ensures View() == CloseEvents(Shutdown(old(View())))
    {
      stopped := true;
      if active.Some? {
        ghost var a := active.value;
        TerminateEntry(active.value);
        assert ([a] + queue)[1..] == queue;
      } else {
        assert [] + queue == queue;
      }
      TerminateQueue();
      eventsClosed := true;
    }
  }
}
