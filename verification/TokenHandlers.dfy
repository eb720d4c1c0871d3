/** What becomes of the handlers that draw on the pool, and of the codes they draw. */
module TokenHandlers {
  import opened TokenPool

  // ---- Single steps, by their effects --------------------------------------

  /** A delivered code is recorded; an undelivered one is first in line again. Either way the handler is done. */
  lemma DeliverExact(p: Pool, h: nat, code: Code)
    requires h < |p.handlers| && p.handlers[h] == Holding(code)
    ensures var t := Next(p, Deliver(h, true));
            t.recorded == p.recorded + [code] && t.buffer == p.buffer && t.handlers == p.handlers[h := Done]
    ensures var t := Next(p, Deliver(h, false));
            t.recorded == p.recorded && t.buffer == [code] + p.buffer && t.handlers == p.handlers[h := Done]
  {
  }

  /** A handler that takes, or resumes, with codes in the buffer holds the oldest one, and a refill is under way if few
      are left; with none a taking handler waits for a refill and a resumed one gives up. */
  lemma TakeExact(p: Pool, h: nat)
    requires h < |p.handlers| && (p.handlers[h] == Taking || p.handlers[h] == Resumed)
    ensures var t := Next(p, if p.handlers[h] == Taking then STake(h) else Resume(h));
            && t.recorded == p.recorded
            && (p.buffer != [] && p.buffer[0] != "" ==>
                  && t.handlers == p.handlers[h := Holding(p.buffer[0])] && t.buffer == p.buffer[1..]
                  && (if |t.buffer| <= p.lowWatermark then t.refill != NoRefill else t.refill == p.refill))
            && (p.buffer == [] ==>
                  && t.buffer == []
                  && (p.handlers[h] == Taking ==> t.handlers == p.handlers[h := Awaiting] && t.refill != NoRefill)
                  && (p.handlers[h] == Resumed ==> t.handlers == p.handlers[h := Done]))
  {
  }

  /** When the refill settles, everyone who waited for it resumes, or gives up if it failed; nobody else is touched. */
  lemma SettleExact(p: Pool, h: nat)
    requires p.refill.Settling? && h < |p.handlers|
    ensures var t := Next(p, Settle);
            && t.refill == NoRefill && t.buffer == p.buffer && |t.handlers| == |p.handlers|
            && t.handlers[h] == if p.handlers[h] != Awaiting then p.handlers[h] else if p.refill.ok then Resumed else Done
  {
  }

  /** At the start the buffer holds the recovered codes, and nothing is under way. */
  lemma StartExact(lowWatermark: nat, codes: seq<Code>)
    ensures var p := Recovered(lowWatermark, codes);
            p.buffer == codes && p.obtained == codes && p.handlers == [] && p.refill == NoRefill && p.recorded == []
  {
  }

  /** A failed refill brings nothing and is about to let its waiters give up. */
  lemma FailExact(p: Pool)
    requires p.refill == InFlight && p.calls > 0
    ensures var t := Next(p, Fail);
            t.buffer == p.buffer && t.refill == Settling(false) && t.handlers == p.handlers && t.calls == p.calls - 1
  {
  }

  /** New codes join the end of the buffer. */
  lemma ArriveExact(p: Pool, codes: seq<Code>)
    requires p.refill == InFlight && p.calls > 0
    requires forall i :: 0 <= i < |codes| ==> codes[i] !in p.obtained
    requires forall i, j :: 0 <= i < j < |codes| ==> codes[i] != codes[j]
    ensures var t := Next(p, Arrive(codes));
            t.buffer == p.buffer + codes && t.refill == Settling(true) && t.handlers == p.handlers
  {
  }

  // ---- Nobody waits for nothing --------------------------------------------

  ghost predicate Expecting(p: Pool) {
    forall h :: 0 <= h < |p.handlers| && p.handlers[h] == Awaiting ==> p.refill != NoRefill
  }

  lemma NextExpecting(p: Pool, step: Step)
    requires Expecting(p)
    ensures Expecting(Next(p, step))
  {
  }

  /** In every run a handler that waits for a refill has one under way. */
  lemma {:induction false} NobodyWaitsForNothing(p: Pool, steps: seq<Step>)
    requires Expecting(p)
    ensures Expecting(Run(p, steps))
    decreases |steps|
  {
    if steps != [] {
      NextExpecting(p, steps[0]);
      NobodyWaitsForNothing(Next(p, steps[0]), steps[1..]);
    }
  }

  function Resumes(hs: seq<nat>): seq<Step> {
    if hs == [] then [] else [Resume(hs[0])] + Resumes(hs[1..])
  }

  /** Handlers hs hold the first codes of the buffer, in order; nobody else changed. */
  ghost predicate Served(p: Pool, t: Pool, hs: seq<nat>) {
    && |hs| <= |p.buffer| && |t.handlers| == |p.handlers| && t.buffer == p.buffer[|hs|..]
    && (forall i :: 0 <= i < |hs| ==> hs[i] < |p.handlers| && t.handlers[hs[i]] == Holding(p.buffer[i]))
    && (forall h :: 0 <= h < |p.handlers| && h !in hs ==> t.handlers[h] == p.handlers[h])
  }

  lemma ServedCons(p: Pool, q: Pool, t: Pool, hs: seq<nat>)
    requires hs != [] && hs[0] < |p.handlers| && p.buffer != [] && hs[0] !in hs[1..]
    requires q.handlers == p.handlers[hs[0] := Holding(p.buffer[0])] && q.buffer == p.buffer[1..] && Served(q, t, hs[1..])
    ensures Served(p, t, hs)
  {
    var rest := hs[1..];
    assert hs == [hs[0]] + rest;
    forall i | 0 <= i < |hs|
      ensures hs[i] < |p.handlers| && t.handlers[hs[i]] == Holding(p.buffer[i])
    {
      if i > 0 {
        assert hs[i] == rest[i - 1] && q.buffer[i - 1] == p.buffer[i];
      }
    }
    assert q.buffer[|rest|..] == p.buffer[|hs|..];
  }

  /** If the refill brought enough, the handlers that waited are served in the order they resume, oldest codes first. */
  lemma {:induction false} WaitersServedInOrder(p: Pool, hs: seq<nat>)
    requires forall i :: 0 <= i < |hs| ==> hs[i] < |p.handlers| && p.handlers[hs[i]] == Resumed
    requires forall i, j :: 0 <= i < j < |hs| ==> hs[i] != hs[j]
    requires |hs| <= |p.buffer| && forall i :: 0 <= i < |p.buffer| ==> p.buffer[i] != ""
    ensures Served(p, Run(p, Resumes(hs)), hs)
    decreases |hs|
  {
    if hs != [] {
      var q, rest := Next(p, Resume(hs[0])), hs[1..];
      TakeExact(p, hs[0]);
      hide Next, Served;
      assert Resumes(hs)[1..] == Resumes(rest);
      WaitersServedInOrder(q, rest);
      ServedCons(p, q, Run(q, Resumes(rest)), hs);
    }
  }

  // ---- What is spent stays spent -------------------------------------------

  lemma {:induction false} RecordsGrow(p: Pool, steps: seq<Step>)
    ensures p.recorded <= Run(p, steps).recorded
    decreases |steps|
  {
    if steps != [] {
      RecordsGrow(Next(p, steps[0]), steps[1..]);
    }
  }

  lemma {:induction false} RunAppend(p: Pool, a: seq<Step>, b: seq<Step>)
    ensures Run(p, a + b) == Run(Run(p, a), b)
    decreases |a|
  {
    if a == [] {
      assert a + b == b;
    } else {
      assert (a + b)[1..] == a[1..] + b;
      RunAppend(Next(p, a[0]), a[1..], b);
    }
  }

  /** A code that reached its viewer is recorded from then on and never in the buffer or a handler's hand again. */
  lemma DeliveredIsSpent(lowWatermark: nat, recovered: seq<Code>, steps: seq<Step>, h: nat, code: Code, later: seq<Step>)
    requires Distinct(recovered)
    requires var p := Run(Recovered(lowWatermark, recovered), steps); h < |p.handlers| && p.handlers[h] == Holding(code)
    ensures var p := Run(Recovered(lowWatermark, recovered), steps);
            var t := Run(Next(p, Deliver(h, true)), later);
            && code in t.recorded && code !in t.buffer
            && forall k :: 0 <= k < |t.handlers| ==> t.handlers[k] != Holding(code)
  {
    var start, deliver := Recovered(lowWatermark, recovered), [Deliver(h, true)];
    var p := Run(start, steps);
    var q := Next(p, Deliver(h, true));
    DeliverExact(p, h, code);
    assert q.recorded[|p.recorded|] == code;
    RecordsGrow(q, later);
    assert deliver[1..] == [] && Run(p, deliver) == q;
    RunAppend(start, steps, deliver);
    RunAppend(start, steps + deliver, later);
    var t := Run(q, later);
    assert t.recorded[|p.recorded|] == code;
    NoCodeGrantedTwice(lowWatermark, recovered, (steps + deliver) + later);
    forall k | 0 <= k < |t.handlers|
      ensures t.handlers[k] != Holding(code)
    {
      if t.handlers[k] == Holding(code) {
        SomeoneHolds(t.handlers, k, code);
      }
    }
  }

  lemma {:induction false} SomeoneHolds(hs: seq<Handler>, k: nat, code: Code)
    requires k < |hs| && hs[k] == Holding(code)
    ensures Held(hs, code) > 0
  {
    if k < |hs| - 1 {
      SomeoneHolds(hs[..|hs| - 1], k, code);
    }
  }
}
