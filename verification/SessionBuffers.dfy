/** What a gate's consumer can still take from its buffer after the viewer lost control. */
module SessionBuffers {
  import opened Common
  import opened Session
  import opened SessionInvariant
  import opened SessionTheorems

  /** A buffer is never over its size, and an open gate whose viewer is not in control holds nothing. */
  ghost predicate BufferOk<C(!new)>(s: State<C>, g: nat)
    requires s.Sound() && g < |s.gates|
  {
    && |s.gates[g].out| <= GATE_BUFFER
    && (!s.gates[g].closed && s.Controller() != Some(s.gates[g].viewer) ==> s.gates[g].out == [])
  }

  ghost predicate Buffers<C(!new)>(s: State<C>)
    requires s.Sound()
  {
    forall g :: 0 <= g < |s.gates| ==> BufferOk(s, g)
  }

  // ---- Every step keeps the buffers ----------------------------------------

  /** The gate is as before, or has been closed, and its viewer has not lost control while it stayed open. */
  lemma SameBuffer<C(!new)>(s: State<C>, t: State<C>, g: nat)
    requires s.Sound() && t.Sound() && g < |s.gates| && g < |t.gates| && BufferOk(s, g)
    requires t.gates[g].viewer == s.gates[g].viewer && t.gates[g].out == s.gates[g].out
    requires !t.gates[g].closed ==>
               !s.gates[g].closed && (s.Controller() == Some(s.gates[g].viewer) ==> t.Controller() == s.Controller())
    ensures BufferOk(t, g)
  {
  }

  /** The gate a goroutine's step is about, if it exists, is the only one the step touches. */
  lemma OtherGate<C(!new)>(s: State<C>, step: Step<C>, g: nat)
    requires s.Sound() && GateStep(step) && step.g != g && g < |s.gates|
    ensures var t := Next(s, step); g < |t.gates| && t.gates[g] == s.gates[g]
  {
  }

  /** Only a send adds to the buffer, only a take removes from it. */
  lemma OwnGate<C(!new)>(s: State<C>, step: Step<C>, g: nat)
    requires s.Sound() && GateStep(step) && step.g == g < |s.gates| && !step.SSend?
    ensures var t := Next(s, step);
            && g < |t.gates| && t.gates[g].viewer == s.gates[g].viewer && (s.gates[g].closed ==> t.gates[g].closed)
            && t.gates[g].out == if step.STake? && s.gates[g].out != [] then s.gates[g].out[1..] else s.gates[g].out
  {
  }

  lemma OwnSend<C(!new)>(s: State<C>, g: nat)
    requires s.Sound() && g < |s.gates|
    ensures |GateSend(s, g).gates| == |s.gates|
    ensures var gate, after := s.gates[g], GateSend(s, g).gates[g];
            && after.viewer == gate.viewer && after.closed == gate.closed
            && (after.out == gate.out
                || (gate.pc.Decided? && gate.pc.isActive && !gate.closed && |gate.out| < GATE_BUFFER
                    && after.out == gate.out + [gate.pc.cmd]))
  {
  }

  lemma GateStepBuffer<C(!new)>(s: State<C>, step: Step<C>, g: nat)
    requires s.Sound() && GateStep(step) && g < |s.gates| && GateOk(s, g) && BufferOk(s, g)
    ensures var t := Next(s, step); t.Sound() && |t.gates| == |s.gates| && BufferOk(t, g)
  {
    GateStepFrame(s, step);
    if step.g != g {
      OtherGate(s, step, g);
    } else if step.SSend? {
      OwnSend(s, g);
    } else {
      OwnGate(s, step, g);
    }
    hide Next;
  }

  lemma ClaimBuffer<C(!new)>(s: State<C>, verified: Option<Claims>, g: nat)
    requires s.Sound() && Claim(s, verified).Sound() && g < |s.gates| && BufferOk(s, g)
    ensures var t := Claim(s, verified); t.gates == s.gates && BufferOk(t, g)
  {
  }

  lemma ReleaseBuffer<C(!new)>(s: State<C>, e: nat, g: nat)
    requires s.Sound() && e < |s.entries| && Release(s, e).Sound() && g < |s.gates| && BufferOk(s, g)
    ensures var t := Release(s, e); |t.gates| == |s.gates| && BufferOk(t, g)
  {
    if s.active != Some(e) && e in s.queue {
      ReleaseEffect(s, e);
      hide Release;
      SameBuffer(s, Release(s, e), g);
    }
  }

  /** The session's own open gates sit on the entry that ends, so they are closed with it. */
  lemma EndBuffer<C(!new)>(s: State<C>, e: nat, kind: EndKind, g: nat)
    requires s.Sound() && EndSession(s, e, kind).Sound() && g < |s.gates| && GateOk(s, g) && BufferOk(s, g)
    ensures var t := EndSession(s, e, kind); |t.gates| == |s.gates| && BufferOk(t, g)
  {
    if s.active == Some(e) {
      EndGateEffect(s, e, kind);
      hide EndSession;
      SameBuffer(s, EndSession(s, e, kind), g);
    }
  }

  lemma EndGateEffect<C(!new)>(s: State<C>, e: nat, kind: EndKind)
    requires s.Sound() && s.active == Some(e)
    ensures EndSession(s, e, kind).gates == Closed(s.gates, s.entries[e].gates)
  {
  }

  lemma OpenGateBuffer<C(!new)>(s: State<C>, viewer: string, g: nat)
    requires s.Sound() && OpenGate(s, viewer).Sound() && g <= |s.gates| && (g < |s.gates| ==> BufferOk(s, g))
    ensures var t := OpenGate(s, viewer); |t.gates| == |s.gates| + 1 && BufferOk(t, g)
  {
    var t := OpenGate(s, viewer);
    if g < |s.gates| {
      assert t.gates[g] == s.gates[g];
    }
  }

  lemma ShutdownBuffer<C(!new)>(s: State<C>, g: nat)
    requires s.Sound() && g < |s.gates| && GateOk(s, g) && BufferOk(s, g)
    ensures var t := Shutdown(s); t.Sound() && |t.gates| == |s.gates| && BufferOk(t, g)
  {
    ShutdownEffect(s);
    ShutdownGate(s, g);
    hide Shutdown;
  }

  lemma DeadlineBuffer<C(!new)>(s: State<C>, e: nat, g: nat)
    requires s.Sound() && g < |s.gates| && BufferOk(s, g) && Deadline(s, e).Sound()
    ensures var t := Deadline(s, e); t.gates == s.gates && BufferOk(t, g)
  {
  }

  lemma NextBuffer<C(!new)>(s: State<C>, step: Step<C>, g: nat)
    requires s.Sound() && Next(s, step).Sound() && g < |s.gates| && GateOk(s, g) && BufferOk(s, g)
    ensures var t := Next(s, step); |s.gates| <= |t.gates| && BufferOk(t, g)
  {
    hide Claim, Release, EndSession, OpenGate, Shutdown, Deadline, GateOk, BufferOk;
    match step {
      case SClaim(v) => ClaimBuffer(s, v, g);
      case SRelease(e) => if e < |s.entries| { ReleaseBuffer(s, e, g); }
      case SEnd(e, kind) => EndBuffer(s, e, kind, g);
      case SDeadline(e) => DeadlineBuffer(s, e, g);
      case SGate(v) => OpenGateBuffer(s, v, g);
      case SShutdown => ShutdownBuffer(s, g);
      case _ =>
        if GateStep(step) { GateStepBuffer(s, step, g); } else { ListenerBuffer(s, step, g); }
    }
  }

  lemma ListenerBuffer<C(!new)>(s: State<C>, step: Step<C>, g: nat)
    requires s.Sound() && ListenerStep(step) && Next(s, step).Sound() && g < |s.gates| && BufferOk(s, g)
    ensures var t := Next(s, step); t.gates == s.gates && BufferOk(t, g)
  {
    ListenerStepFrame(s, step);
    hide Next;
    SameBuffer(s, Next(s, step), g);
  }

  /** A step adds one gate at most. */
  lemma NewGates<C(!new)>(s: State<C>, step: Step<C>)
    requires s.Sound()
    ensures !step.SGate? ==> |Next(s, step).gates| == |s.gates|
  {
    if step.SShutdown? {
      ShutdownEffect(s);
    } else if GateStep(step) {
      GateStepFrame(s, step);
    }
  }

  lemma NextBuffers<C(!new)>(s: State<C>, step: Step<C>)
    requires Inv(s) && Buffers(s)
    ensures Inv(Next(s, step)) && Buffers(Next(s, step))
  {
    NextInv(s, step);
    InvSound(s);
    InvSound(Next(s, step));
    NewGates(s, step);
    var t := Next(s, step);
    forall g | 0 <= g < |t.gates|
      ensures BufferOk(t, g)
    {
      if g < |s.gates| {
        GateOf(s, g);
        NextBuffer(s, step, g);
      } else {
        OpenGateBuffer(s, step.viewer, |s.gates|);
      }
    }
  }

  lemma GateOf<C(!new)>(s: State<C>, g: nat)
    requires Inv(s) && g < |s.gates|
    ensures GateOk(s, g)
  {
  }

  // ---- Takes after the loss of control -------------------------------------

  /** The step hands a command of gate g to its consumer although the gate's viewer is not in control. */
  ghost predicate LateTake<C(!new)>(s: State<C>, step: Step<C>, g: nat)
    requires s.Sound()
  {
    && step == STake(g) && g < |s.gates| && s.gates[g].out != []
    && s.Controller() != Some(s.gates[g].viewer)
  }

  ghost function LateTakes<C(!new)>(s: State<C>, steps: seq<Step<C>>, g: nat): nat
    decreases |steps|
  {
    if steps == [] || !s.Sound() then 0
    else (if LateTake(s, steps[0], g) then 1 else 0) + LateTakes(Next(s, steps[0]), steps[1..], g)
  }

  /** What the gate can still give away late. */
  ghost function Leftover<C(!new)>(s: State<C>, g: nat): nat {
    if g < |s.gates| && s.gates[g].closed then |s.gates[g].out| else GATE_BUFFER
  }

  lemma ClosedBufferShrinks<C(!new)>(s: State<C>, step: Step<C>, g: nat)
    requires s.Sound() && g < |s.gates| && s.gates[g].closed
    ensures var t := Next(s, step);
            && g < |t.gates| && t.gates[g].closed
            && |t.gates[g].out| + (if LateTake(s, step, g) then 1 else 0) <= |s.gates[g].out|
            && (step == STake(g) && s.gates[g].out != [] ==> t.gates[g].out == s.gates[g].out[1..])
            && (step != STake(g) ==> t.gates[g].out == s.gates[g].out)
  {
    hide Claim, Release, EndSession, Deadline, OpenGate, GateReceive, GateCheck, GateSend, GateTake, GateExit, Emit;
    if step.SShutdown? {
      TerminateAllEffect(s.(stopped := true), (if s.active.Some? then [s.active.value] else []) + s.queue);
    } else if ListenerStep(step) {
      ListenerStepFrame(s, step);
    } else if !GateStep(step) {
      ManagerSendsNothing(s, step, g);
      ManagerNeverReopens(s, step, g);
    } else if step.g != g {
      OtherGate(s, step, g);
    } else if step.SSend? {
      OwnSend(s, g);
    } else {
      OwnGate(s, step, g);
    }
  }

  lemma ManagerNeverReopens<C(!new)>(s: State<C>, step: Step<C>, g: nat)
    requires s.Sound() && g < |s.gates| && s.gates[g].closed
    requires step.SClaim? || step.SRelease? || step.SEnd? || step.SDeadline? || step.SGate?
    ensures g < |Next(s, step).gates| && Next(s, step).gates[g].closed
  {
  }

  lemma LeftoverShrinks<C(!new)>(s: State<C>, step: Step<C>, g: nat)
    requires s.Sound() && Buffers(s) && Next(s, step).Sound() && Buffers(Next(s, step))
    ensures Leftover(Next(s, step), g) + (if LateTake(s, step, g) then 1 else 0) <= Leftover(s, g)
  {
    var t := Next(s, step);
    if g < |s.gates| && s.gates[g].closed {
      ClosedBufferShrinks(s, step, g);
    } else {
      hide Next;
      if g < |s.gates| {
        assert BufferOk(s, g);
      }
      if g < |t.gates| {
        assert BufferOk(t, g);
      }
    }
  }

  lemma {:induction false} LateTakesBounded<C(!new)>(s: State<C>, steps: seq<Step<C>>, g: nat)
    requires Inv(s) && Buffers(s)
    ensures LateTakes(s, steps, g) <= Leftover(s, g)
    decreases |steps|
  {
    if steps != [] {
      hide Next, Inv;
      InvSound(s);
      NextBuffers(s, steps[0]);
      InvSound(Next(s, steps[0]));
      LeftoverShrinks(s, steps[0], g);
      LateTakesBounded(Next(s, steps[0]), steps[1..], g);
    }
  }

  /** Over a whole run, at most a buffer of a gate's commands is taken while its viewer is not in control. */
  lemma AtMostABufferLate<C(!new)>(cfg: Config, steps: seq<Step<C>>, g: nat)
    ensures LateTakes(Initial(cfg), steps, g) <= 8
  {
    InitialInv<C>(cfg);
    LateTakesBounded(Initial(cfg), steps, g);
  }

  // ---- A run that attains it -----------------------------------------------

  /** Gate 0 of the controller, open and idle, with n commands in its buffer. */
  ghost predicate Filled<C(!new)>(s: State<C>, claims: Claims, n: nat) {
    && s.Sound() && s.active == Some(0) && s.queue == [] && |s.entries| == 1 && s.entries[0].claims == claims
    && s.entries[0].gates == [0]
    && |s.gates| == 1 && s.gates[0].viewer == claims.viewerID && !s.gates[0].closed && s.gates[0].pc == GatePc.Waiting
    && |s.gates[0].out| == n
  }

  function Forward<C>(cmd: C): seq<Step<C>> { [SReceive(0, cmd), SCheck(0), SSend(0)] }

  /** n commands pass the gate. */
  function Fill<C>(cmd: C, n: nat): seq<Step<C>> { if n == 0 then [] else Forward(cmd) + Fill(cmd, n - 1) }

  function Takes<C>(n: nat): seq<Step<C>> { if n == 0 then [] else [STake(0)] + Takes(n - 1) }

  lemma {:induction false} LateTakesAppend<C(!new)>(s: State<C>, a: seq<Step<C>>, b: seq<Step<C>>, g: nat)
    requires Inv(s)
    ensures Inv(Run(s, a)) && Run(s, a + b) == Run(Run(s, a), b)
    ensures LateTakes(s, a + b, g) == LateTakes(s, a, g) + LateTakes(Run(s, a), b, g)
    decreases |a|
  {
    hide Next, Inv;
    InvSound(s);
    if a == [] {
      assert a + b == b;
    } else {
      assert (a + b)[0] == a[0] && (a + b)[1..] == a[1..] + b;
      NextInv(s, a[0]);
      LateTakesAppend(Next(s, a[0]), a[1..], b, g);
    }
  }

  lemma ForwardFills<C(!new)>(s: State<C>, claims: Claims, cmd: C, n: nat)
    requires Filled(s, claims, n) && n < GATE_BUFFER
    ensures Filled(Run(s, Forward(cmd)), claims, n + 1)
  {
    var f := Forward(cmd);
    var s1 := Next(s, f[0]);
    var s2 := Next(s1, f[1]);
    var s3 := Next(s2, f[2]);
    assert f[1..][0] == f[1] && f[1..][1..] == [f[2]] && [f[2]][1..] == [];
    assert Filled(s3, claims, n + 1);
    assert Run(s, f) == Run(s1, f[1..]) == Run(s2, f[1..][1..]) == Run(s3, []);
  }

  lemma {:induction false} FillFills<C(!new)>(s: State<C>, claims: Claims, cmd: C, n: nat, m: nat)
    requires Inv(s) && Filled(s, claims, m) && m + n <= GATE_BUFFER
    ensures Filled(Run(s, Fill(cmd, n)), claims, m + n)
    decreases n
  {
    hide Next, Inv, Filled, Forward;
    if n > 0 {
      ForwardFills(s, claims, cmd, m);
      LateTakesAppend(s, Forward(cmd), Fill(cmd, n - 1), 0);
      FillFills(Run(s, Forward(cmd)), claims, cmd, n - 1, m + 1);
    }
  }

  /** Nobody is in control, and gate 0 still holds n commands. */
  ghost predicate Abandoned<C(!new)>(s: State<C>, n: nat) {
    s.Sound() && s.active.None? && |s.gates| == 1 && |s.gates[0].out| == n
  }

  lemma EndAbandons<C(!new)>(s: State<C>, claims: Claims, n: nat)
    requires Filled(s, claims, n)
    ensures Abandoned(Run(s, [SEnd(0, Expired)]), n)
  {
    var steps: seq<Step<C>> := [SEnd(0, Expired)];
    var t := Next(s, steps[0]);
    assert Abandoned(t, n);
    assert steps[1..] == [] && Run(s, steps) == Run(t, []);
  }

  lemma TakeLate<C(!new)>(s: State<C>, n: nat)
    requires Abandoned(s, n) && n > 0
    ensures LateTake(s, STake(0), 0) && Abandoned(Next(s, STake(0)), n - 1)
  {
  }

  lemma {:induction false} TakesAreLate<C(!new)>(s: State<C>, n: nat)
    requires Abandoned(s, n)
    ensures LateTakes(s, Takes<C>(n), 0) == n
    decreases n
  {
    if n > 0 {
      hide Next;
      TakeLate(s, n);
      var steps: seq<Step<C>> := Takes(n);
      assert steps[0] == STake(0) && steps[1..] == Takes(n - 1);
      TakesAreLate(Next(s, STake(0)), n - 1);
    }
  }

  lemma ClaimAndGate<C(!new)>(cfg: Config, claims: Claims)
    requires claims.roomID == cfg.roomID
    ensures Filled(RunFrom<C>(cfg, [SClaim(Some(claims)), SGate(claims.viewerID)]), claims, 0)
  {
    var steps: seq<Step<C>> := [SClaim(Some(claims)), SGate(claims.viewerID)];
    var s: State<C> := Initial(cfg);
    var s1 := Next(s, steps[0]);
    var s2 := Next(s1, steps[1]);
    assert Filled(s2, claims, 0);
    assert steps[1..] == [steps[1]] && steps[1..][1..] == [];
    assert Run(s, steps) == Run(s1, steps[1..]) == Run(s2, []);
  }

  /** The bound is exact: for every claim and every command, a full buffer can be taken late. */
  lemma ABufferLate<C(!new)>(cfg: Config, claims: Claims, cmd: C) returns (steps: seq<Step<C>>)
    requires claims.roomID == cfg.roomID
    ensures LateTakes(Initial(cfg), steps, 0) == 8
  {
    hide Next, Inv, Filled, Abandoned, Fill, Takes;
    var open: seq<Step<C>> := [SClaim(Some(claims)), SGate(claims.viewerID)];
    var fill, end, takes := Fill(cmd, GATE_BUFFER), [SEnd(0, Expired)], Takes<C>(GATE_BUFFER);
    InitialInv<C>(cfg);
    ClaimAndGate<C>(cfg, claims);
    var s0: State<C> := Initial(cfg);
    LateTakesAppend(s0, open, fill + (end + takes), 0);
    var s1 := Run(s0, open);
    FillFills(s1, claims, cmd, GATE_BUFFER, 0);
    LateTakesAppend(s1, fill, end + takes, 0);
    var s2 := Run(s1, fill);
    EndAbandons(s2, claims, GATE_BUFFER);
    LateTakesAppend(s2, end, takes, 0);
    TakesAreLate(Run(s2, end), GATE_BUFFER);
    steps := open + (fill + (end + takes));
    AtMostABufferLate(cfg, steps, 0);
  }
}
