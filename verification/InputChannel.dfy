/** The host's input channel: a stale-frame gate in front of a bounded drop-oldest buffer, with the
    consumer receiving at any moment between the handler's channel operations. */
module InputChannel {

  /** A decoded controller frame; number 0 means the sender does not number its frames. */
  datatype Frame<S> = Frame(number: nat, state: S)

  /** The handler: idle, past a failed send, or past the drop of the oldest frame. */
  datatype Handler<S> = Idle | BufferFull(frame: Frame<S>) | DroppedOldest(frame: Frame<S>)

  datatype Channel<S> = Channel(
    capacity: nat, closed: bool, haveNumber: bool, lastNumber: nat, buffer: seq<Frame<S>>,
    handler: Handler<S>, accepted: seq<Frame<S>>, consumed: seq<Frame<S>>)

  function Open<S>(capacity: nat): Channel<S> {
    Channel(if capacity == 0 then 64 else capacity, false, false, 0, [], Idle, [], [])
  }

  predicate Stale<S>(c: Channel<S>, f: Frame<S>) { f.number != 0 && c.haveNumber && f.number <= c.lastNumber }

  function Receive<S>(c: Channel<S>, f: Frame<S>): Channel<S> {
    if c.handler != Idle || c.closed || Stale(c, f) then c else
    var c1 := (if f.number != 0 then c.(lastNumber := f.number, haveNumber := true) else c).(accepted := c.accepted + [f]);
    if |c.buffer| < c.capacity then c1.(buffer := c.buffer + [f]) else c1.(handler := BufferFull(f))
  }

  function DropOldest<S>(c: Channel<S>): Channel<S> {
    if !c.handler.BufferFull? then c
    else c.(handler := DroppedOldest(c.handler.frame), buffer := if c.buffer == [] then [] else c.buffer[1..])
  }

  function Retry<S>(c: Channel<S>): Channel<S> {
    if !c.handler.DroppedOldest? then c
    else c.(handler := Idle,
            buffer := if |c.buffer| < c.capacity then c.buffer + [c.handler.frame] else c.buffer)
  }

  function Consume<S>(c: Channel<S>): Channel<S> {
    if c.buffer == [] then c else c.(buffer := c.buffer[1..], consumed := c.consumed + [c.buffer[0]])
  }

  datatype Step<S> = Arrive(frame: Frame<S>) | SDropOldest | SRetry | SConsume | SClose

  function Next<S>(c: Channel<S>, step: Step<S>): Channel<S> {
    match step
    case Arrive(f) => Receive(c, f)
    case SDropOldest => DropOldest(c)
    case SRetry => Retry(c)
    case SConsume => Consume(c)
    case SClose => if c.handler == Idle then c.(closed := true) else c
  }

  ghost function Run<S>(c: Channel<S>, steps: seq<Step<S>>): Channel<S>
    decreases |steps|
  {
    if steps == [] then c else Run(Next(c, steps[0]), steps[1..])
  }

  // ---- Subsequences --------------------------------------------------------

  ghost predicate Subsequence<T>(a: seq<T>, b: seq<T>)
    decreases |b|
  {
    if a == [] then true else if b == [] then false else
    var a', b' := a[..|a| - 1], b[..|b| - 1];
    (a[|a| - 1] == b[|b| - 1] && Subsequence(a', b')) || Subsequence(a, b')
  }

  lemma SubsequenceSnoc<T>(a: seq<T>, b: seq<T>, x: T)
    requires Subsequence(a, b)
    ensures Subsequence(a + [x], b + [x])
  {
    assert (a + [x])[..|a|] == a && (b + [x])[..|b|] == b;
  }

  lemma {:induction false} SubsequenceRemove<T>(a: seq<T>, b: seq<T>, i: nat)
    requires Subsequence(a, b) && i < |a|
    ensures Subsequence(a[..i] + a[i + 1..], b)
    decreases |b|
  {
    var r, b' := a[..i] + a[i + 1..], b[..|b| - 1];
    if Subsequence(a, b') {
      SubsequenceRemove(a, b', i);
    } else if i == |a| - 1 {
      assert r == a[..|a| - 1];
    } else {
      SubsequenceRemove(a[..|a| - 1], b', i);
      assert r[..|r| - 1] == a[..|a| - 1][..i] + a[..|a| - 1][i + 1..];
      assert r[|r| - 1] == a[|a| - 1];
    }
  }

  // ---- What every step keeps -----------------------------------------------

  /** Frames consumed, buffered and in the handler's hand, oldest first. */
  ghost function Kept<S>(c: Channel<S>): seq<Frame<S>> {
    c.consumed + c.buffer + (if c.handler == Idle then [] else [c.handler.frame])
  }

  ghost predicate Increasing<S>(fs: seq<Frame<S>>) {
    forall i, j :: 0 <= i < j < |fs| && fs[i].number != 0 && fs[j].number != 0 ==> fs[i].number < fs[j].number
  }

  /** What is kept is in acceptance order and ends with the newest accepted frame. */
  ghost predicate Ordered<S>(kept: seq<Frame<S>>, accepted: seq<Frame<S>>) {
    && Subsequence(kept, accepted)
    && (accepted != [] ==> kept != [] && kept[|kept| - 1] == accepted[|accepted| - 1])
  }

  /** Numbered frames were accepted in increasing order, none above the last number. */
  ghost predicate Numbers<S>(accepted: seq<Frame<S>>, have: bool, last: nat) {
    && Increasing(accepted)
    && (forall i :: 0 <= i < |accepted| && accepted[i].number != 0 ==> have && accepted[i].number <= last)
  }

  ghost predicate Inv<S>(c: Channel<S>) {
    && c.capacity > 0 && |c.buffer| <= c.capacity && (c.handler.DroppedOldest? ==> |c.buffer| < c.capacity)
    && Numbers(c.accepted, c.haveNumber, c.lastNumber)
    && Ordered(Kept(c), c.accepted)
  }

  lemma OrderedSnoc<S>(kept: seq<Frame<S>>, accepted: seq<Frame<S>>, f: Frame<S>)
    requires Ordered(kept, accepted)
    ensures Ordered(kept + [f], accepted + [f])
  {
    SubsequenceSnoc(kept, accepted, f);
  }

  lemma NumbersSnoc<S>(accepted: seq<Frame<S>>, have: bool, last: nat, f: Frame<S>)
    requires Numbers(accepted, have, last)
    requires f.number != 0 && have ==> f.number > last
    ensures if f.number != 0 then Numbers(accepted + [f], true, f.number) else Numbers(accepted + [f], have, last)
  {
  }

  lemma ReceiveInv<S>(c: Channel<S>, f: Frame<S>)
    requires Inv(c)
    ensures Inv(Receive(c, f))
  {
    var c' := Receive(c, f);
    if c' != c {
      assert Kept(c') == Kept(c) + [f];
      OrderedSnoc(Kept(c), c.accepted, f);
      NumbersSnoc(c.accepted, c.haveNumber, c.lastNumber, f);
    }
  }

  lemma OrderedRemove<S>(kept: seq<Frame<S>>, accepted: seq<Frame<S>>, k: nat)
    requires Ordered(kept, accepted) && k < |kept| - 1
    ensures Ordered(kept[..k] + kept[k + 1..], accepted)
  {
    SubsequenceRemove(kept, accepted, k);
  }

  lemma DropOldestInv<S>(c: Channel<S>)
    requires Inv(c)
    ensures Inv(DropOldest(c))
  {
    if c.handler.BufferFull? && c.buffer != [] {
      var k := |c.consumed|;
      KeptDrop(c);
      OrderedRemove(Kept(c), c.accepted, k);
    }
  }

  lemma KeptDrop<S>(c: Channel<S>)
    requires c.handler.BufferFull? && c.buffer != []
    ensures var k := |c.consumed|; Kept(DropOldest(c)) == Kept(c)[..k] + Kept(c)[k + 1..]
  {
  }

  lemma KeptSame<S>(c: Channel<S>, step: Step<S>)
    requires Inv(c) && (step.SRetry? || step.SConsume? || step.SClose?)
    ensures Kept(Next(c, step)) == Kept(c)
  {
  }

  lemma QuietInv<S>(c: Channel<S>, step: Step<S>)
    requires Inv(c) && (step.SRetry? || step.SConsume? || step.SClose?)
    ensures Inv(Next(c, step))
  {
    KeptSame(c, step);
  }

  lemma NextInv<S>(c: Channel<S>, step: Step<S>)
    requires Inv(c)
    ensures Inv(Next(c, step))
  {
    match step {
      case Arrive(f) => ReceiveInv(c, f);
      case SDropOldest => DropOldestInv(c);
      case _ => QuietInv(c, step);
    }
  }

  lemma {:induction false} RunInv<S>(c: Channel<S>, steps: seq<Step<S>>)
    requires Inv(c)
    ensures Inv(Run(c, steps))
    decreases |steps|
  {
    if steps != [] {
      NextInv(c, steps[0]);
      RunInv(Next(c, steps[0]), steps[1..]);
    }
  }

  /** Whatever is lost, repeated or reordered on the way and however the consumer is scheduled: numbered
      frames are accepted in increasing order, what is kept is in acceptance order, and the newest
      accepted frame is consumed, last in the buffer, or still in the handler's hand. */
  lemma FreshestFrameSurvives<S>(capacity: nat, steps: seq<Step<S>>)
    ensures var c := Run(Open<S>(capacity), steps);
            && Increasing(c.accepted) && Ordered(Kept(c), c.accepted)
            && |c.buffer| <= if capacity == 0 then 64 else capacity
  {
    RunInv(Open<S>(capacity), steps);
    RunCapacity(Open<S>(capacity), steps);
  }

  lemma {:induction false} RunCapacity<S>(c: Channel<S>, steps: seq<Step<S>>)
    ensures Run(c, steps).capacity == c.capacity
    decreases |steps|
  {
    if steps != [] {
      RunCapacity(Next(c, steps[0]), steps[1..]);
    }
  }

  // ---- What is accepted, told from the arrivals alone ----------------------

  /** The frames that reached the handler: those that arrived while it was idle and the channel open. */
  ghost function Arrivals<S>(c: Channel<S>, steps: seq<Step<S>>): seq<Frame<S>>
    decreases |steps|
  {
    if steps == [] then []
    else (if steps[0].Arrive? && c.handler == Idle && !c.closed then [steps[0].frame] else [])
         + Arrivals(Next(c, steps[0]), steps[1..])
  }

  /** Arrival i is unnumbered or newer than everything before it. */
  ghost predicate Newer<S>(arrivals: seq<Frame<S>>, i: nat)
    requires i < |arrivals|
  {
    arrivals[i].number == 0 || forall j :: 0 <= j < i ==> arrivals[j].number < arrivals[i].number
  }

  ghost function Accepted<S>(arrivals: seq<Frame<S>>): seq<Frame<S>> {
    if arrivals == [] then [] else
    var n := |arrivals| - 1;
    Accepted(arrivals[..n]) + (if Newer(arrivals, n) then [arrivals[n]] else [])
  }

  /** The channel after these arrivals. */
  ghost predicate Tells<S>(c: Channel<S>, arrivals: seq<Frame<S>>) {
    && c.accepted == Accepted(arrivals)
    && (forall i :: 0 <= i < |arrivals| ==> arrivals[i].number <= c.lastNumber && (arrivals[i].number != 0 ==> c.haveNumber))
    && (c.haveNumber ==> c.lastNumber != 0 && exists i :: 0 <= i < |arrivals| && arrivals[i].number == c.lastNumber)
    && (!c.haveNumber ==> c.lastNumber == 0)
  }

  lemma ArrivalTells<S>(c: Channel<S>, arrivals: seq<Frame<S>>, f: Frame<S>)
    requires Tells(c, arrivals) && c.handler == Idle && !c.closed
    ensures Tells(Receive(c, f), arrivals + [f])
  {
    var all, n := arrivals + [f], |arrivals|;
    assert all[..n] == arrivals && all[n] == f;
    assert forall i :: 0 <= i < n ==> all[i] == arrivals[i];
    assert Newer(all, n) <==> !Stale(c, f) by {
      if f.number != 0 && c.haveNumber {
        var i :| 0 <= i < n && arrivals[i].number == c.lastNumber;
        assert all[i].number == c.lastNumber;
      }
    }
  }

  lemma {:induction false} RunTells<S>(c: Channel<S>, arrivals: seq<Frame<S>>, steps: seq<Step<S>>)
    requires Tells(c, arrivals)
    ensures Tells(Run(c, steps), arrivals + Arrivals(c, steps))
    decreases |steps|
  {
    hide Tells;
    if steps == [] {
      assert arrivals + [] == arrivals;
    } else {
      var step, later := steps[0], Arrivals(Next(c, steps[0]), steps[1..]);
      if step.Arrive? && c.handler == Idle && !c.closed {
        ArrivalTells(c, arrivals, step.frame);
        RunTells(Receive(c, step.frame), arrivals + [step.frame], steps[1..]);
        assert (arrivals + [step.frame]) + later == arrivals + ([step.frame] + later);
      } else {
        QuietTells(c, arrivals, step);
        RunTells(Next(c, step), arrivals, steps[1..]);
        assert [] + later == later;
      }
    }
  }

  lemma QuietTells<S>(c: Channel<S>, arrivals: seq<Frame<S>>, step: Step<S>)
    requires Tells(c, arrivals) && !(step.Arrive? && c.handler == Idle && !c.closed)
    ensures Tells(Next(c, step), arrivals)
  {
  }

  /** A frame is accepted iff it is unnumbered or newer than every frame that reached the handler before it. */
  lemma AcceptedExactly<S>(capacity: nat, steps: seq<Step<S>>)
    ensures Run(Open<S>(capacity), steps).accepted == Accepted(Arrivals(Open<S>(capacity), steps))
  {
    RunTells(Open<S>(capacity), [], steps);
    assert [] + Arrivals(Open<S>(capacity), steps) == Arrivals(Open<S>(capacity), steps);
  }

  lemma {:induction false} AcceptedLast<S>(arrivals: seq<Frame<S>>, k: nat)
    requires k < |arrivals| && Newer(arrivals, k) && forall i :: k < i < |arrivals| ==> !Newer(arrivals, i)
    ensures Accepted(arrivals) != [] && Accepted(arrivals)[|Accepted(arrivals)| - 1] == arrivals[k]
  {
    var n := |arrivals| - 1;
    if k < n {
      var before := arrivals[..n];
      forall i | 0 <= i < n
        ensures Newer(before, i) == Newer(arrivals, i)
      {
        assert forall j :: 0 <= j <= i ==> before[j] == arrivals[j];
      }
      AcceptedLast(before, k);
    }
  }

  /** So the latest frame that is new when it arrives is the one that survives: the consumer gets it last. */
  lemma NewestArrivalSurvives<S>(capacity: nat, steps: seq<Step<S>>, k: nat)
    requires var arrivals := Arrivals(Open<S>(capacity), steps);
             k < |arrivals| && Newer(arrivals, k) && forall i :: k < i < |arrivals| ==> !Newer(arrivals, i)
    ensures var kept := Kept(Run(Open<S>(capacity), steps));
            kept != [] && kept[|kept| - 1] == Arrivals(Open<S>(capacity), steps)[k]
  {
    AcceptedExactly<S>(capacity, steps);
    AcceptedLast(Arrivals(Open<S>(capacity), steps), k);
    RunInv(Open<S>(capacity), steps);
  }

  lemma {:induction false} HighestIsLast<S>(arrivals: seq<Frame<S>>) returns (k: nat)
    requires arrivals != [] && forall i :: 0 <= i < |arrivals| ==> arrivals[i].number != 0
    ensures k < |arrivals| && Newer(arrivals, k) && (forall i :: k < i < |arrivals| ==> !Newer(arrivals, i))
    ensures forall i :: 0 <= i < |arrivals| ==> arrivals[i].number <= arrivals[k].number
  {
    var n := |arrivals| - 1;
    if n == 0 {
      k := 0;
    } else {
      var before := arrivals[..n];
      var m := HighestIsLast(before);
      if arrivals[n].number > arrivals[m].number {
        k := n;
        assert forall i :: 0 <= i < n ==> arrivals[i] == before[i];
      } else {
        k := m;
        forall i | 0 <= i < n
          ensures Newer(before, i) == Newer(arrivals, i)
        {
          assert forall j :: 0 <= j <= i ==> before[j] == arrivals[j];
        }
        assert arrivals[m] == before[m];
      }
    }
  }

  /** When every frame is numbered, that is one with the highest number of all that arrived. */
  lemma HighestNumberSurvives<S>(capacity: nat, steps: seq<Step<S>>)
    requires var arrivals := Arrivals(Open<S>(capacity), steps);
             arrivals != [] && forall i :: 0 <= i < |arrivals| ==> arrivals[i].number != 0
    ensures var kept, arrivals := Kept(Run(Open<S>(capacity), steps)), Arrivals(Open<S>(capacity), steps);
            kept != [] && forall i :: 0 <= i < |arrivals| ==> arrivals[i].number <= kept[|kept| - 1].number
  {
    var k := HighestIsLast(Arrivals(Open<S>(capacity), steps));
    NewestArrivalSurvives(capacity, steps, k);
  }

  lemma {:induction false} ClosedStays<S>(c: Channel<S>, steps: seq<Step<S>>)
    requires c.closed
    ensures Run(c, steps).closed && Run(c, steps).accepted == c.accepted
    decreases |steps|
  {
    if steps != [] {
      ClosedStays(Next(c, steps[0]), steps[1..]);
    }
  }

  /** Once the idle peer closes, nothing is accepted any more; what is buffered stays to be consumed. */
  lemma NothingAfterClose<S>(c: Channel<S>, later: seq<Step<S>>)
    requires c.handler == Idle
    ensures Next(c, SClose).buffer == c.buffer
    ensures Run(Next(c, SClose), later).accepted == c.accepted
  {
    ClosedStays(Next(c, SClose), later);
  }

  /** The buffer has room whenever a frame arrives. */
  ghost predicate Room<S>(c: Channel<S>, steps: seq<Step<S>>)
    decreases |steps|
  {
    steps != [] ==> (steps[0].Arrive? ==> |c.buffer| < c.capacity) && Room(Next(c, steps[0]), steps[1..])
  }

  /** Nothing accepted is lost unless a frame finds the buffer full. */
  lemma {:induction false} NothingLostWithRoom<S>(c: Channel<S>, steps: seq<Step<S>>)
    requires c.handler == Idle && Kept(c) == c.accepted && Room(c, steps)
    ensures Run(c, steps).handler == Idle && Kept(Run(c, steps)) == Run(c, steps).accepted
    decreases |steps|
  {
    if steps != [] {
      var d := Next(c, steps[0]);
      assert Kept(d) == d.accepted by {
        if steps[0].Arrive? && d != c {
          assert Kept(d) == Kept(c) + [steps[0].frame];
        } else if steps[0].SConsume? && c.buffer != [] {
          assert Kept(d) == Kept(c);
        }
      }
      NothingLostWithRoom(d, steps[1..]);
    }
  }

  /** The peer's fields as its message handler updates them. */
  class Peer<S(==)> {
    const capacity: nat
    var closed: bool
    var haveInputSeq: bool
    var lastInputSeq: nat
    var commands: seq<Frame<S>>
    var handler: Handler<S>
    ghost var accepted: seq<Frame<S>>
    ghost var consumed: seq<Frame<S>>

    ghost function View(): Channel<S>
      reads this
    {
      Channel(capacity, closed, haveInputSeq, lastInputSeq, commands, handler, accepted, consumed)
    }

    constructor (commandBuffer: int)
      ensures View() == Open(if commandBuffer <= 0 then 0 else commandBuffer)
    {
      capacity := if commandBuffer <= 0 then 64 else commandBuffer;
      closed, haveInputSeq, lastInputSeq, commands, handler := false, false, 0, [], Idle;
      accepted, consumed := [], [];
    }

    /** The handler up to and including its first select. */
    method OnMessage(cmd: Frame<S>)
      requires handler == Idle
      modifies this
      ensures View() == Receive(old(View()), cmd)
    {
      if closed {
        return;
      }
      if cmd.number != 0 {
        if haveInputSeq && cmd.number <= lastInputSeq {
          return;
        }
        lastInputSeq := cmd.number;
        haveInputSeq := true;
      }
      accepted := accepted + [cmd];
      if |commands| < capacity {
        commands := commands + [cmd];
      } else {
        handler := BufferFull(cmd);
      }
    }

    method TakeOne()
      requires handler.BufferFull?
      modifies this
      ensures View() == DropOldest(old(View()))
    {
      handler := DroppedOldest(handler.frame);
      if |commands| > 0 {
        commands := commands[1..];
      }
    }

    method SendAgain()
      requires handler.DroppedOldest?
      modifies this
      ensures View() == Retry(old(View()))
    {
      if |commands| < capacity {
        commands := commands + [handler.frame];
      }
      handler := Idle;
    }
  }
}
