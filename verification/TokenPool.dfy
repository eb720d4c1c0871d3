/** The bot's pool of pre-minted codes and the handlers that draw on it, interleaved at every await. */
module TokenPool {

  type Code = string

  /** The shared refill: none, a request at the server, or answered and about to clear the shared promise. */
  datatype Refill = NoRefill | InFlight | Settling(ok: bool)

  /** One run of the pipeline's handler, past the policy. */
  datatype Handler =
    | Taking
    | Awaiting
    | Resumed
    | Holding(code: Code)
    | Done

  /** `obtained` is every code the server gave out, `recorded` the codes of recorded grants in order,
      `discarded` codes shifted off the buffer and thrown away, `calls` the requests at the server. */
  datatype Pool = Pool(
    lowWatermark: nat, buffer: seq<Code>, refill: Refill, calls: nat, handlers: seq<Handler>,
    obtained: seq<Code>, recorded: seq<Code>, discarded: seq<Code>)

  /** After start-up recovery of the issued, unredeemed codes. */
  function Recovered(lowWatermark: nat, codes: seq<Code>): Pool {
    Pool(lowWatermark, codes, NoRefill, 0, [], codes, [], [])
  }

  /** Concurrent callers share one refill. */
  function StartRefill(p: Pool): Pool {
    if p.refill == NoRefill then p.(refill := InFlight, calls := p.calls + 1) else p
  }

  /** The synchronous tail of take: shift a code, top up when low. */
  function Shift(p: Pool, h: nat): Pool
    requires h < |p.handlers|
  {
    if p.buffer == [] then p.(handlers := p.handlers[h := Done])
    else
      var code, rest := p.buffer[0], p.buffer[1..];
      if code == "" then p.(buffer := rest, handlers := p.handlers[h := Done], discarded := p.discarded + [code])
      else
        var p' := p.(buffer := rest, handlers := p.handlers[h := Holding(code)]);
        if |rest| <= p.lowWatermark then StartRefill(p') else p'
  }

  function Take(p: Pool, h: nat): Pool
    requires h < |p.handlers|
  {
    if p.handlers[h] != Taking then p
    else if p.buffer == [] then StartRefill(p).(handlers := p.handlers[h := Awaiting])
    else Shift(p, h)
  }

  /** Wakes the handlers that wait for the refill: to shift, or to give up. */
  function Wake(hs: seq<Handler>, ok: bool): (r: seq<Handler>)
    ensures |r| == |hs|
  {
    seq(|hs|, i requires 0 <= i < |hs| => if hs[i] == Awaiting then (if ok then Resumed else Done) else hs[i])
  }

  /** Codes the server may hand out next: new and all different. */
  predicate FreshCodes(p: Pool, codes: seq<Code>) {
    && (forall i :: 0 <= i < |codes| ==> codes[i] !in p.obtained)
    && (forall i, j :: 0 <= i < j < |codes| ==> codes[i] != codes[j])
  }

  datatype Step =
    | Begin
    | STake(h: nat)
    | Arrive(codes: seq<Code>)
    | Fail
    | Settle
    | Resume(h: nat)
    | Deliver(h: nat, received: bool)

  function Next(p: Pool, step: Step): Pool {
    match step
    case Begin => p.(handlers := p.handlers + [Taking])
    case STake(h) => if h < |p.handlers| then Take(p, h) else p
    case Arrive(codes) =>
      if p.refill == InFlight && p.calls > 0 && FreshCodes(p, codes) then
        p.(buffer := p.buffer + codes, obtained := p.obtained + codes, refill := Settling(true), calls := p.calls - 1)
      else p
    case Fail => if p.refill == InFlight && p.calls > 0 then p.(refill := Settling(false), calls := p.calls - 1) else p
    case Settle =>
      if p.refill.Settling? then p.(refill := NoRefill, handlers := Wake(p.handlers, p.refill.ok)) else p
    case Resume(h) => if h < |p.handlers| && p.handlers[h] == Resumed then Shift(p, h) else p
    case Deliver(h, received) =>
      if h < |p.handlers| && p.handlers[h].Holding? then
        var code := p.handlers[h].code;
        var p' := p.(handlers := p.handlers[h := Done]);
        if received then p'.(recorded := p.recorded + [code]) else p'.(buffer := [code] + p.buffer)
      else p
  }

  ghost function Run(p: Pool, steps: seq<Step>): Pool
    decreases |steps|
  {
    if steps == [] then p else Run(Next(p, steps[0]), steps[1..])
  }

  // ---- Conservation --------------------------------------------------------

  ghost function Copies(codes: seq<Code>, c: Code): nat { multiset(codes)[c] }

  ghost function HeldBy(h: Handler, c: Code): nat { if h == Holding(c) then 1 else 0 }

  /** How many handlers hold code c. */
  ghost function Held(hs: seq<Handler>, c: Code): nat {
    if hs == [] then 0 else Held(hs[..|hs| - 1], c) + HeldBy(hs[|hs| - 1], c)
  }

  lemma {:induction false} HeldUpdate(hs: seq<Handler>, i: nat, h: Handler, c: Code)
    requires i < |hs|
    ensures Held(hs[i := h], c) == Held(hs, c) - HeldBy(hs[i], c) + HeldBy(h, c)
    decreases |hs|
  {
    var n := |hs| - 1;
    if i == n {
      assert hs[i := h][..n] == hs[..n];
    } else {
      assert hs[i := h][..n] == hs[..n][i := h];
      HeldUpdate(hs[..n], i, h, c);
    }
  }

  lemma {:induction false} HeldWake(hs: seq<Handler>, ok: bool, c: Code)
    ensures Held(Wake(hs, ok), c) == Held(hs, c)
    decreases |hs|
  {
    if hs != [] {
      HeldWake(hs[..|hs| - 1], ok, c);
      assert Wake(hs, ok)[..|hs| - 1] == Wake(hs[..|hs| - 1], ok);
    }
  }

  ghost predicate Distinct(codes: seq<Code>) { forall i, j :: 0 <= i < j < |codes| ==> codes[i] != codes[j] }

  /** The copies of c in the buffer, in handlers' hands, in recorded grants, and thrown away. */
  ghost function Total(p: Pool, c: Code): nat {
    Copies(p.buffer, c) + Held(p.handlers, c) + Copies(p.recorded, c) + Copies(p.discarded, c)
  }

  /** Every code obtained is in exactly one place; only the empty code is ever thrown away. */
  ghost predicate Conserved(p: Pool) {
    && Distinct(p.obtained)
    && (forall c :: Total(p, c) == Copies(p.obtained, c))
    && (forall i :: 0 <= i < |p.discarded| ==> p.discarded[i] == "")
    && p.calls == (if p.refill == InFlight then 1 else 0)
  }

  lemma CopiesCons(x: Code, codes: seq<Code>, c: Code)
    ensures Copies([x] + codes, c) == Copies(codes, c) + (if x == c then 1 else 0)
  {
  }

  lemma CopiesSnoc(codes: seq<Code>, x: Code, c: Code)
    ensures Copies(codes + [x], c) == Copies(codes, c) + (if x == c then 1 else 0)
  {
  }

  lemma ShiftTotal(p: Pool, h: nat, c: Code)
    requires h < |p.handlers| && !p.handlers[h].Holding?
    ensures Total(Shift(p, h), c) == Total(p, c)
  {
    hide Copies, Held;
    var p' := Shift(p, h);
    HeldUpdate(p.handlers, h, p'.handlers[h], c);
    if p.buffer != [] {
      assert p.buffer == [p.buffer[0]] + p.buffer[1..];
      CopiesCons(p.buffer[0], p.buffer[1..], c);
      CopiesSnoc(p.discarded, p.buffer[0], c);
    }
  }

  lemma ShiftConserves(p: Pool, h: nat)
    requires Conserved(p) && h < |p.handlers| && !p.handlers[h].Holding?
    ensures Conserved(Shift(p, h))
  {
    var p' := Shift(p, h);
    forall c
      ensures Total(p', c) == Copies(p'.obtained, c)
    {
      ShiftTotal(p, h, c);
    }
  }

  lemma TakeConserves(p: Pool, h: nat)
    requires Conserved(p) && h < |p.handlers|
    ensures Conserved(Take(p, h))
  {
    if p.handlers[h] == Taking && p.buffer == [] {
      forall c
        ensures Held(p.handlers[h := Awaiting], c) == Held(p.handlers, c)
      {
        HeldUpdate(p.handlers, h, Awaiting, c);
      }
      var p' := Take(p, h);
      assert forall c :: Total(p', c) == Total(p, c);
    } else if p.handlers[h] == Taking {
      ShiftConserves(p, h);
    }
  }

  lemma ArriveConserves(p: Pool, codes: seq<Code>)
    requires Conserved(p)
    ensures Conserved(Next(p, Arrive(codes)))
  {
    if p.refill == InFlight && FreshCodes(p, codes) {
      var p', all := Next(p, Arrive(codes)), p.obtained + codes;
      forall i, j | 0 <= i < j < |all|
        ensures all[i] != all[j]
      {
        if i < |p.obtained| <= j {
          assert codes[j - |p.obtained|] !in p.obtained;
        }
      }
      forall c
        ensures Total(p', c) == Copies(p'.obtained, c)
      {
        assert Total(p, c) == Copies(p.obtained, c);
      }
    }
  }

  lemma DeliverConserves(p: Pool, h: nat, received: bool)
    requires Conserved(p)
    ensures Conserved(Next(p, Deliver(h, received)))
  {
    if h < |p.handlers| && p.handlers[h].Holding? {
      var p', code := Next(p, Deliver(h, received)), p.handlers[h].code;
      forall c
        ensures Total(p', c) == Copies(p'.obtained, c)
      {
        assert Total(p, c) == Copies(p.obtained, c);
        HeldUpdate(p.handlers, h, Done, c);
        CopiesSnoc(p.recorded, code, c);
        CopiesCons(code, p.buffer, c);
      }
    }
  }

  lemma HandlersConserve(p: Pool, step: Step)
    requires Conserved(p) && (step.Begin? || step.Settle? || step.Fail?)
    ensures Conserved(Next(p, step))
  {
    var p' := Next(p, step);
    forall c
      ensures Total(p', c) == Copies(p'.obtained, c)
    {
      assert Total(p, c) == Copies(p.obtained, c);
      assert (p.handlers + [Taking])[..|p.handlers|] == p.handlers;
      if p.refill.Settling? {
        HeldWake(p.handlers, p.refill.ok, c);
      }
    }
  }

  lemma NextConserves(p: Pool, step: Step)
    requires Conserved(p)
    ensures Conserved(Next(p, step))
  {
    match step {
      case Begin => HandlersConserve(p, step);
      case STake(h) => if h < |p.handlers| { TakeConserves(p, h); }
      case Arrive(codes) => ArriveConserves(p, codes);
      case Fail => HandlersConserve(p, step);
      case Settle => HandlersConserve(p, step);
      case Resume(h) => if h < |p.handlers| && p.handlers[h] == Resumed { ShiftConserves(p, h); }
      case Deliver(h, received) => DeliverConserves(p, h, received);
    }
  }

  lemma {:induction false} RunConserves(p: Pool, steps: seq<Step>)
    requires Conserved(p)
    ensures Conserved(Run(p, steps))
    decreases |steps|
  {
    if steps != [] {
      NextConserves(p, steps[0]);
      RunConserves(Next(p, steps[0]), steps[1..]);
    }
  }

  lemma {:induction false} DistinctCount(codes: seq<Code>, c: Code)
    requires Distinct(codes)
    ensures multiset(codes)[c] <= 1
  {
    if codes != [] {
      var n := |codes| - 1;
      assert codes == codes[..n] + [codes[n]];
      DistinctCount(codes[..n], c);
    }
  }

  /** In one process run, whatever the interleaving of handlers and refills: the codes the server gave out
      are the buffer, the codes in handlers' hands, the recorded grants and the discarded empty codes,
      each in one place only; at most one refill is at the server. */
  lemma CodesAreConserved(lowWatermark: nat, recovered: seq<Code>, steps: seq<Step>)
    requires Distinct(recovered)
    ensures Conserved(Run(Recovered(lowWatermark, recovered), steps))
    ensures Run(Recovered(lowWatermark, recovered), steps).calls <= 1
  {
    RunConserves(Recovered(lowWatermark, recovered), steps);
  }

  /** So no code is recorded for two grants, and a recorded code is neither buffered nor held. */
  lemma NoCodeGrantedTwice(lowWatermark: nat, recovered: seq<Code>, steps: seq<Step>)
    requires Distinct(recovered)
    ensures var p := Run(Recovered(lowWatermark, recovered), steps);
            && Distinct(p.recorded)
            && forall c :: c in p.recorded ==> c in p.obtained && c !in p.buffer && Held(p.handlers, c) == 0
  {
    CodesAreConserved(lowWatermark, recovered, steps);
    var p := Run(Recovered(lowWatermark, recovered), steps);
    forall c | c in p.recorded
      ensures c in p.obtained && c !in p.buffer && Held(p.handlers, c) == 0 && Copies(p.recorded, c) == 1
    {
      DistinctCount(p.obtained, c);
      assert Total(p, c) == Copies(p.obtained, c);
      assert c in multiset(p.obtained);
    }
    forall i, j | 0 <= i < j < |p.recorded|
      ensures p.recorded[i] != p.recorded[j]
    {
      assert Copies(p.recorded, p.recorded[i]) == 1;
      OnceMeansOnce(p.recorded, i, j);
    }
  }

  lemma OnceMeansOnce(codes: seq<Code>, i: nat, j: nat)
    requires i < j < |codes| && Copies(codes, codes[i]) == 1
    ensures codes[i] != codes[j]
  {
    assert codes == codes[..j] + codes[j..];
    assert codes[i] in codes[..j] && codes[j] in codes[j..];
  }

  // ---- The object ----------------------------------------------------------

  /** The pool's own fields; handlers and the server live outside it. */
  class CodeBuffer {
    const lowWatermark: nat
    var buffer: seq<Code>
    var refill: Refill
    var calls: nat

    constructor (lowWatermark: nat, recovered: seq<Code>)
      ensures this.lowWatermark == lowWatermark && buffer == recovered && refill == NoRefill && calls == 0
    {
      this.lowWatermark := lowWatermark;
      buffer, refill, calls := recovered, NoRefill, 0;
    }

    /** This pool, seen as part of a system state with these handlers and this history. */
    ghost predicate Matches(p: Pool)
      reads this
    {
      p.lowWatermark == lowWatermark && p.buffer == buffer && p.refill == refill && p.calls == calls
    }

    method RequestRefill(ghost p: Pool)
      requires Matches(p)
      modifies this
      ensures Matches(StartRefill(p))
    {
      if refill != NoRefill {
        return;
      }
      refill := InFlight;
      calls := calls + 1;
    }

    /** take after its await: `code` is empty when the caller must throw. */
    method ShiftCode(ghost p: Pool, ghost h: nat) returns (code: Code)
      requires Matches(p) && h < |p.handlers|
      modifies this
      ensures Matches(Shift(p, h))
      ensures Shift(p, h).handlers[h] == if code == "" then Done else Holding(code)
    {
      if |buffer| == 0 {
        return "";
      }
      code := buffer[0];
      buffer := buffer[1..];
      if code == "" {
        return;
      }
      if |buffer| <= lowWatermark {
        RequestRefill(p.(buffer := buffer, handlers := p.handlers[h := Holding(code)]));
      }
    }

    method GiveBack(ghost p: Pool, ghost h: nat, code: Code)
      requires Matches(p) && h < |p.handlers| && p.handlers[h] == Holding(code)
      modifies this
      ensures Matches(Next(p, Deliver(h, false)))
    {
      buffer := [code] + buffer;
    }

    method RefillArrived(ghost p: Pool, codes: seq<Code>)
      requires Matches(p) && p.refill == InFlight && p.calls > 0 && FreshCodes(p, codes)
      modifies this
      ensures Matches(Next(p, Arrive(codes)))
    {
      buffer := buffer + codes;
      calls := calls - 1;
      refill := Settling(true);
    }
  }
}
