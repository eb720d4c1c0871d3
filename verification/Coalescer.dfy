/** The input coalescer and the send loop that drains it: any number of pushers, one loop, one timer. */
module Coalescer {
  import opened Common

  /** Where the send loop is: off line, waiting in its select, about to poll, or about to ask how long to wait. */
  datatype Loop = Down | Select | Polling | Asking

  /** A command handed to the writer at time `at`, when `upTo` commands had been pushed. */
  datatype Emission<C> = Emission(cmd: C, at: int, upTo: nat)

  /** `unsignalled` counts pushers between their store and their signal; `running` and `fired` are the
      flush timer, `armed` the loop's own note about it. */
  datatype System<C> = System(
    interval: nat, pending: Option<C>, lastSent: Option<int>, token: bool,
    unsignalled: nat, loop: Loop, armed: bool, running: bool, fired: bool,
    now: int, pushes: seq<C>, emitted: seq<Emission<C>>)

  function Initial<C>(interval: nat, now: int): System<C> {
    System(interval, None, None, false, 0, Down, false, false, false, now, [], [])
  }

  // ---- The coalescer -------------------------------------------------------

  function Store<C>(s: System<C>, cmd: C): System<C> {
    s.(pending := Some(cmd), unsignalled := s.unsignalled + 1, pushes := s.pushes + [cmd])
  }

  function Signal<C>(s: System<C>): System<C> {
    if s.unsignalled == 0 then s else s.(unsignalled := s.unsignalled - 1, token := true)
  }

  /** The rate limit holds the pending command back; before the first send it never does. */
  predicate TooSoon<C>(s: System<C>) { s.interval > 0 && s.lastSent.Some? && s.now - s.lastSent.value < s.interval }

  /** The loop polls once; when a command comes out, `wrote` says whether the connection took it. */
  function Poll<C>(s: System<C>, wrote: bool): System<C> {
    if s.loop != Polling then s
    else if s.pending.None? || TooSoon(s) then s.(loop := Asking)
    else
      s.(pending := None, lastSent := Some(s.now),
         emitted := s.emitted + [Emission(s.pending.value, s.now, |s.pushes|)],
         loop := if wrote then Polling else Down)
  }

  /** How long until the pending command may be sent; -1 when there is none. */
  function UntilReady<C>(s: System<C>): (d: int)
    ensures d == -1 <==> s.pending.None?
    ensures d == 0 <==> s.pending.Some? && !TooSoon(s)
    ensures d > 0 ==> forall later :: s.now <= later ==> (TooSoon(s.(now := later)) <==> later < s.now + d)
  {
    if s.pending.None? then -1
    else if s.interval == 0 || s.lastSent.None? then 0
    else if s.interval - (s.now - s.lastSent.value) < 0 then 0
    else s.interval - (s.now - s.lastSent.value)
  }

  // ---- The loop ------------------------------------------------------------

  /** Stop the timer, or drain it if it had fired, then start it. */
  function Rearm<C>(s: System<C>): System<C> {
    s.(armed := true, running := true, fired := if s.armed && !s.running then false else s.fired)
  }

  function Ask<C>(s: System<C>): System<C> {
    if s.loop != Asking then s
    else if UntilReady(s) < 0 then s.(loop := Select)
    else if UntilReady(s) == 0 then s.(loop := Polling)
    else Rearm(s).(loop := Select)
  }

  /** A new connection starts with a stopped timer and a flush. */
  function Connect<C>(s: System<C>): System<C> {
    if s.loop != Down then s else s.(loop := Polling, armed := false, running := false, fired := false)
  }

  datatype Step<C> =
    | SStore(cmd: C) | SSignal | STime(ticks: nat) | SFire
    | SConnect | STakeToken | STakeTimer | SPoll(wrote: bool) | SAsk | SDrop

  function Next<C>(s: System<C>, step: Step<C>): System<C> {
    match step
    case SStore(cmd) => Store(s, cmd)
    case SSignal => Signal(s)
    case STime(ticks) => s.(now := s.now + ticks)
    case SFire => if s.running then s.(running := false, fired := true) else s
    case SConnect => Connect(s)
    case STakeToken => if s.loop == Select && s.token then s.(token := false, loop := Polling) else s
    case STakeTimer => if s.loop == Select && s.fired then s.(fired := false, armed := false, loop := Polling) else s
    case SPoll(wrote) => Poll(s, wrote)
    case SAsk => Ask(s)
    case SDrop => s.(loop := Down)
  }

  ghost function Run<C>(s: System<C>, steps: seq<Step<C>>): System<C>
    decreases |steps|
  {
    if steps == [] then s else Run(Next(s, steps[0]), steps[1..])
  }

  // ---- Invariants ----------------------------------------------------------

  /** While the loop waits with a command pending, something is on its way to wake it. */
  ghost predicate WakeUp<C>(s: System<C>) {
    && (s.loop == Select && s.pending.Some? ==> s.token || s.running || s.fired || s.unsignalled > 0)
    && (s.loop != Down ==> (s.armed <==> s.running || s.fired) && !(s.running && s.fired))
  }

  /** Emissions are pushes in push order, each the latest of its moment, at least `interval` apart. */
  ghost predicate Emissions<C>(emitted: seq<Emission<C>>, pushes: seq<C>, interval: nat) {
    && (forall i :: 0 <= i < |emitted| ==>
          0 < emitted[i].upTo <= |pushes| && emitted[i].cmd == pushes[emitted[i].upTo - 1])
    && (forall i, j :: 0 <= i < j < |emitted| ==>
          emitted[i].upTo < emitted[j].upTo && emitted[j].at - emitted[i].at >= interval)
  }

  /** The pending command is the last push and newer than the last emission; with nothing pending the
      last emission is the last push. */
  ghost predicate Faithful<C>(s: System<C>) {
    && Emissions(s.emitted, s.pushes, s.interval)
    && (s.pending.Some? ==> s.pushes != [] && s.pending.value == s.pushes[|s.pushes| - 1])
    && (if s.emitted == [] then s.lastSent.None? && (s.pending.None? ==> s.pushes == []) else
          var last := s.emitted[|s.emitted| - 1];
          s.lastSent == Some(last.at) && last.at <= s.now
          && (if s.pending.None? then last.upTo == |s.pushes| else last.upTo < |s.pushes|))
  }

  lemma NextWakeUp<C>(s: System<C>, step: Step<C>)
    requires WakeUp(s)
    ensures WakeUp(Next(s, step))
  {
  }

  lemma EmissionsGrow<C>(emitted: seq<Emission<C>>, pushes: seq<C>, cmd: C, interval: nat)
    requires Emissions(emitted, pushes, interval)
    ensures Emissions(emitted, pushes + [cmd], interval)
  {
  }

  lemma EmissionsSnoc<C>(emitted: seq<Emission<C>>, pushes: seq<C>, e: Emission<C>, interval: nat)
    requires Emissions(emitted, pushes, interval)
    requires 0 < e.upTo <= |pushes| && e.cmd == pushes[e.upTo - 1]
    requires emitted != [] ==>
      var last := emitted[|emitted| - 1]; last.upTo < e.upTo && e.at - last.at >= interval
    ensures Emissions(emitted + [e], pushes, interval)
  {
    var r := emitted + [e];
    forall i, j | 0 <= i < j < |r|
      ensures r[i].upTo < r[j].upTo && r[j].at - r[i].at >= interval
    {
      if j == |emitted| && i < j - 1 {
        assert emitted[i].upTo < emitted[j - 1].upTo && emitted[j - 1].at - emitted[i].at >= interval;
      }
    }
  }

  lemma EmittedFaithful<C>(s: System<C>, before: seq<Emission<C>>, e: Emission<C>)
    requires s.emitted == before + [e] && Emissions(before + [e], s.pushes, s.interval)
    requires s.pending.None? && s.lastSent == Some(e.at) && e.at == s.now && e.upTo == |s.pushes|
    ensures Faithful(s)
  {
  }

  lemma PollEmits<C>(s: System<C>, wrote: bool)
    requires Faithful(s) && s.loop == Polling && s.pending.Some? && !TooSoon(s)
    ensures Faithful(Poll(s, wrote))
  {
    var e := Emission(s.pending.value, s.now, |s.pushes|);
    EmissionsSnoc(s.emitted, s.pushes, e, s.interval);
    EmittedFaithful(Poll(s, wrote), s.emitted, e);
  }

  lemma PollFaithful<C>(s: System<C>, wrote: bool)
    requires Faithful(s)
    ensures Faithful(Poll(s, wrote))
  {
    if s.loop == Polling && s.pending.Some? && !TooSoon(s) {
      PollEmits(s, wrote);
    } else {
      QuietFaithful(s, Poll(s, wrote));
    }
  }

  lemma StoreFaithful<C>(s: System<C>, cmd: C)
    requires Faithful(s)
    ensures Faithful(Store(s, cmd))
  {
    EmissionsGrow(s.emitted, s.pushes, cmd, s.interval);
  }

  lemma QuietFaithful<C>(s: System<C>, s': System<C>)
    requires Faithful(s) && s'.now >= s.now && s'.interval == s.interval && s'.pushes == s.pushes
    requires s'.emitted == s.emitted && s'.pending == s.pending && s'.lastSent == s.lastSent
    ensures Faithful(s')
  {
  }

  lemma QuietStep<C>(s: System<C>, step: Step<C>)
    requires !step.SPoll? && !step.SStore?
    ensures var s' := Next(s, step);
            && s'.now >= s.now && s'.interval == s.interval && s'.pushes == s.pushes
            && s'.emitted == s.emitted && s'.pending == s.pending && s'.lastSent == s.lastSent
  {
  }

  lemma NextFaithful<C>(s: System<C>, step: Step<C>)
    requires Faithful(s)
    ensures Faithful(Next(s, step))
  {
    if step.SPoll? {
      PollFaithful(s, step.wrote);
    } else if step.SStore? {
      StoreFaithful(s, step.cmd);
    } else {
      QuietStep(s, step);
      QuietFaithful(s, Next(s, step));
    }
  }

  lemma {:induction false} RunKeeps<C>(s: System<C>, steps: seq<Step<C>>)
    requires WakeUp(s) && Faithful(s)
    ensures WakeUp(Run(s, steps)) && Faithful(Run(s, steps))
    decreases |steps|
  {
    if steps != [] {
      NextWakeUp(s, steps[0]);
      NextFaithful(s, steps[0]);
      RunKeeps(Next(s, steps[0]), steps[1..]);
    }
  }

  // ---- The promises --------------------------------------------------------

  /** No lost wake-up, in any interleaving, over any number of connections. */
  lemma NoLostWakeUp<C>(interval: nat, start: int, steps: seq<Step<C>>)
    ensures var s := Run(Initial(interval, start), steps);
            s.loop == Select && s.pending.Some? ==> s.token || s.running || s.fired || s.unsignalled > 0
  {
    RunKeeps(Initial(interval, start), steps);
  }

  /** No further push, and the connection is not dropped. */
  ghost predicate Undisturbed<C>(steps: seq<Step<C>>) {
    forall i :: 0 <= i < |steps| ==> !steps[i].SStore? && !steps[i].SDrop?
  }

  ghost function Elapsed<C>(steps: seq<Step<C>>): nat {
    if steps == [] then 0 else (if steps[0].STime? then steps[0].ticks else 0) + Elapsed(steps[1..])
  }

  /** What a fair scheduler lets happen: the loop asks, a pusher signals, the timer fires, the loop takes either, and
      polls. */
  ghost predicate Wanted<C>(step: Step<C>, k: nat) {
    match k
    case 0 => step.SAsk?
    case 1 => step.SSignal?
    case 2 => step.SFire?
    case 3 => step.STakeTimer?
    case 4 => step.STakeToken?
    case _ => step.SPoll?
  }

  const TURN := 6

  /** The steps wanted from number k on occur in this order, among any others. */
  ghost predicate Contains<C>(steps: seq<Step<C>>, k: nat)
    decreases |steps|
  {
    k >= TURN || (steps != [] && Contains(steps[1..], if Wanted(steps[0], k) then k + 1 else k))
  }

  /** The command pending in s is the next one emitted. */
  ghost predicate Sent<C>(s: System<C>, t: System<C>)
    requires s.pending.Some?
  {
    s.emitted <= t.emitted && |s.emitted| < |t.emitted| && t.emitted[|s.emitted|].cmd == s.pending.value
  }

  /** It is still pending. */
  ghost predicate Waits<C>(s: System<C>, t: System<C>) {
    && t.pending == s.pending && t.emitted == s.emitted && t.lastSent == s.lastSent && t.interval == s.interval
    && t.loop != Down && WakeUp(t)
  }

  /** How far the loop has come once the wanted steps before number k have occurred. */
  ghost predicate Phase<C>(t: System<C>, k: nat) {
    && (k >= 1 ==> t.loop != Asking)
    && (k >= 2 && t.loop == Select ==> t.token || t.running || t.fired)
    && (k >= 3 && t.loop == Select ==> t.token || t.fired)
    && (k >= 4 && t.loop == Select ==> t.token)
    && (k >= 5 ==> t.loop == Polling)
  }

  lemma SentStays<C>(s: System<C>, t: System<C>, step: Step<C>)
    requires s.pending.Some? && Sent(s, t)
    ensures Sent(s, Next(t, step))
  {
  }

  lemma WaitsOrSent<C>(s: System<C>, t: System<C>, step: Step<C>)
    requires s.pending.Some? && Waits(s, t) && !step.SStore? && !step.SDrop?
    ensures var u := Next(t, step);
            Sent(s, u) || (Waits(s, u) && u.now == t.now + if step.STime? then step.ticks else 0)
  {
    NextWakeUp(t, step);
  }

  lemma PhaseStep<C>(s: System<C>, t: System<C>, step: Step<C>, k: nat)
    requires s.pending.Some? && Waits(s, t) && !TooSoon(t) && Phase(t, k) && k < TURN
    requires !step.SStore? && !step.SDrop?
    ensures var u, m := Next(t, step), if Wanted(step, k) then k + 1 else k;
            Sent(s, u) || (m < TURN && !TooSoon(u) && Phase(u, m))
  {
  }

  lemma {:induction false} SentRuns<C>(s: System<C>, t: System<C>, steps: seq<Step<C>>)
    requires s.pending.Some? && Sent(s, t)
    ensures Sent(s, Run(t, steps))
    decreases |steps|
  {
    if steps != [] {
      SentStays(s, t, steps[0]);
      SentRuns(s, Next(t, steps[0]), steps[1..]);
    }
  }

  lemma {:induction false} IntervalPasses<C>(s: System<C>, t: System<C>, steps: seq<Step<C>>)
    requires s.pending.Some? && Waits(s, t) && Undisturbed(steps)
    ensures var u := Run(t, steps); Sent(s, u) || (Waits(s, u) && u.now == t.now + Elapsed(steps))
    decreases |steps|
  {
    if steps != [] {
      var u := Next(t, steps[0]);
      WaitsOrSent(s, t, steps[0]);
      if Sent(s, u) {
        SentRuns(s, u, steps[1..]);
      } else {
        IntervalPasses(s, u, steps[1..]);
      }
    }
  }

  lemma {:induction false} TurnSends<C>(s: System<C>, t: System<C>, steps: seq<Step<C>>, k: nat)
    requires s.pending.Some? && Waits(s, t) && !TooSoon(t) && Phase(t, k) && k < TURN
    requires Undisturbed(steps) && Contains(steps, k)
    ensures Sent(s, Run(t, steps))
    decreases |steps|
  {
    var step, u := steps[0], Next(t, steps[0]);
    WaitsOrSent(s, t, step);
    PhaseStep(s, t, step, k);
    if Sent(s, u) {
      SentRuns(s, u, steps[1..]);
    } else {
      TurnSends(s, u, steps[1..], if Wanted(step, k) then k + 1 else k);
    }
  }

  /** So a pending command is never stuck: whatever schedule follows, once an interval has passed and the loop, the
      timer and the pushers have each had their turn, exactly that command has been sent next. */
  lemma PendingIsSent<C>(interval: nat, start: int, steps: seq<Step<C>>, first: seq<Step<C>>, second: seq<Step<C>>)
    requires Undisturbed(first) && Undisturbed(second) && Elapsed(first) >= interval && Contains(second, 0)
    ensures var s := Run(Initial(interval, start), steps);
            s.pending.Some? && s.loop != Down ==> Sent(s, Run(Run(s, first), second))
  {
    var s := Run(Initial(interval, start), steps);
    RunKeeps(Initial(interval, start), steps);
    RunInterval(Initial(interval, start), steps);
    if s.pending.Some? && s.loop != Down {
      var t := Run(s, first);
      IntervalPasses(s, s, first);
      if Sent(s, t) {
        SentRuns(s, t, second);
      } else {
        assert !TooSoon(t);
        TurnSends(s, t, second, 0);
      }
    }
  }

  lemma NextInterval<C>(s: System<C>, step: Step<C>)
    ensures Next(s, step).interval == s.interval
  {
  }

  lemma {:induction false} RunInterval<C>(s: System<C>, steps: seq<Step<C>>)
    ensures Run(s, steps).interval == s.interval
    decreases |steps|
  {
    if steps != [] {
      NextInterval(s, steps[0]);
      RunInterval(Next(s, steps[0]), steps[1..]);
    }
  }

  /** A poll hands over the pending command unless it is too soon, and after a write the loop polls again. */
  lemma PollExact<C>(s: System<C>, wrote: bool)
    requires s.loop == Polling
    ensures var t := Next(s, SPoll(wrote));
            if s.pending.Some? && !TooSoon(s)
            then t.pending.None? && t.lastSent == Some(s.now) && t.emitted == s.emitted + [Emission(s.pending.value, s.now, |s.pushes|)]
                 && t.loop == (if wrote then Polling else Down)
            else t == s.(loop := Asking)
  {
  }

  /** The loop goes to sleep only with nothing to send, or with the timer set because it is too soon. */
  lemma SleepsOnlyWhenIdle<C>(s: System<C>, step: Step<C>)
    requires s.loop != Select && Next(s, step).loop == Select
    ensures step.SAsk? && (s.pending.None? || (TooSoon(s) && Next(s, step).running))
  {
  }

  /** It wakes only for a token or the timer, and uses it up. */
  lemma WakesExactly<C>(s: System<C>, step: Step<C>)
    requires s.loop == Select && Next(s, step).loop != Select
    ensures step.SDrop? || (step.STakeToken? && s.token && !Next(s, step).token)
            || (step.STakeTimer? && s.fired && !Next(s, step).fired && !Next(s, step).armed)
  {
  }

  /** Everything handed to the writer is a push, in push order, the latest at its moment; and when
      nothing is pending the last push has been handed over. */
  lemma CoalescerContract<C>(interval: nat, start: int, steps: seq<Step<C>>)
    ensures Faithful(Run(Initial<C>(interval, start), steps))
  {
    RunKeeps(Initial(interval, start), steps);
  }

  lemma {:induction false} Spacing<C>(s: System<C>, i: nat, j: nat)
    requires Faithful(s) && i <= j < |s.emitted|
    ensures s.emitted[j].at - s.emitted[i].at >= (j - i) * s.interval
    decreases j - i
  {
    if i < j {
      Spacing(s, i, j - 1);
      assert (j - i) * s.interval == (j - 1 - i) * s.interval + s.interval;
    }
  }

  /** Emissions i to j all fall into a window of length w only if j - i intervals fit into it: a window
      holds at most floor(w / interval) + 1 of them. */
  lemma WindowBound<C>(interval: nat, start: int, steps: seq<Step<C>>, i: nat, j: nat, w: nat)
    requires i <= j < |Run(Initial<C>(interval, start), steps).emitted|
    requires var e := Run(Initial<C>(interval, start), steps).emitted; e[j].at - e[i].at <= w
    ensures (j - i) * interval <= w
  {
    RunKeeps(Initial<C>(interval, start), steps);
    RunInterval(Initial<C>(interval, start), steps);
    Spacing(Run(Initial<C>(interval, start), steps), i, j);
  }

  /** The shortest time between sends for a rate per second, in nanoseconds; no limit without a rate. */
  function IntervalFor(rateHz: int): (interval: nat)
    ensures rateHz <= 0 ==> interval == 0
    ensures rateHz > 0 ==> interval * rateHz <= 1_000_000_000 < (interval + 1) * rateHz
  {
    if rateHz > 0 then 1_000_000_000 / rateHz else 0
  }

  // ---- The object ----------------------------------------------------------

  /** The coalescer's fields and the send loop's, changed one critical section at a time. */
  class Target<C> {
    const interval: nat
    var pending: Option<C>
    var lastSent: Option<int>
    var notify: bool
    var unsignalled: nat
    var loop: Loop
    var armed: bool
    var running: bool
    var fired: bool
    var now: int
    ghost var pushes: seq<C>
    ghost var emitted: seq<Emission<C>>

    ghost function View(): System<C>
      reads this
    {
      System(interval, pending, lastSent, notify, unsignalled, loop, armed, running, fired, now, pushes, emitted)
    }

    /** `rateHz` commands a second at most; none or less means no limit. Times are in nanoseconds. */
    constructor (rateHz: int, now: int)
      ensures View() == Initial(IntervalFor(rateHz), now)
    {
      interval := IntervalFor(rateHz);
      pending, lastSent, notify, unsignalled, loop := None, None, false, 0, Down;
      armed, running, fired, this.now := false, false, false, now;
      pushes, emitted := [], [];
    }

    /** push, first half: under the lock. */
    method PushStore(cmd: C)
      modifies this
      ensures View() == Store(old(View()), cmd)
    {
      pending := Some(cmd);
      pushes := pushes + [cmd];
      unsignalled := unsignalled + 1;
    }

    /** push, second half: a non-blocking send on the one-slot channel. */
    method PushSignal()
      requires unsignalled > 0
      modifies this
      ensures View() == Signal(old(View()))
    {
      if !notify {
        notify := true;
      }
      unsignalled := unsignalled - 1;
    }

    method PollOnce(wrote: bool) returns (r: Option<C>)
      requires loop == Polling
      modifies this
      ensures View() == Poll(old(View()), wrote)
      ensures r == if old(TooSoon(View())) then None else old(pending)
    {
      if pending.None? {
        loop := Asking;
        return None;
      }
      if interval > 0 && lastSent.Some? && now - lastSent.value < interval {
        loop := Asking;
        return None;
      }
      r := pending;
      emitted := emitted + [Emission(pending.value, now, |pushes|)];
      pending := None;
      lastSent := Some(now);
      if !wrote {
        loop := Down;
      }
    }

    method HowLong() returns (d: int)
      ensures d == UntilReady(View())
    {
      if pending.None? {
        return -1;
      }
      if interval <= 0 {
        return 0;
      }
      if lastSent.None? {
        return 0;
      }
      var remaining := interval - (now - lastSent.value);
      if remaining < 0 {
        return 0;
      }
      return remaining;
    }

    /** flush's decision after a fruitless poll. */
    method AfterPoll()
      requires loop == Asking && (armed <==> running || fired) && !(running && fired)
      modifies this
      ensures View() == Ask(old(View()))
    {
      var d := HowLong();
      if d < 0 {
        loop := Select;
      } else if d == 0 {
        loop := Polling;
      } else {
        if armed {
          var stopped := running;
          running := false;
          if !stopped && fired {
            fired := false;
          }
        }
        running := true;
        armed := true;
        loop := Select;
      }
    }
  }
}
