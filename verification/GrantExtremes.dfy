/** Runs of the grant pipeline that reach its limits, and from them the exact conditions under which each limit
    holds. */
module GrantExtremes {
  import opened Common
  import opened GrantLimits

  // ---- Runs in pieces ------------------------------------------------------

  lemma {:induction false} RunAppend(p: Policy, b: Bot, s: seq<Step>, t: seq<Step>, k: nat)
    requires p.Complete()
    ensures Run(p, b, s + t) == Run(p, Run(p, b, s), t)
    ensures InFlight(p, b, s, k) && InFlight(p, Run(p, b, s), t, k) ==> InFlight(p, b, s + t, k)
    decreases |s|
  {
    if s == [] {
      assert s + t == t;
    } else {
      assert (s + t)[0] == s[0] && (s + t)[1..] == s[1..] + t;
      RunAppend(p, Next(p, b, s[0]), s[1..], t, k);
    }
  }

  lemma RunCons(p: Policy, b: Bot, x: Step, t: seq<Step>, k: nat)
    requires p.Complete()
    ensures Run(p, b, [x] + t) == Run(p, Next(p, b, x), t)
    ensures InFlight(p, b, [x] + t, k) <==> |b.pending| <= k && InFlight(p, Next(p, b, x), t, k)
  {
    assert ([x] + t)[1..] == t;
  }

  lemma {:induction false} InFlightMono(p: Policy, b: Bot, s: seq<Step>, k: nat, m: nat)
    requires p.Complete() && InFlight(p, b, s, k) && k <= m
    ensures InFlight(p, b, s, m)
    decreases |s|
  {
    if s != [] {
      InFlightMono(p, Next(p, b, s[0]), s[1..], k, m);
    }
  }

  // ---- Handlers begun together ---------------------------------------------

  /** A request that every rule of the source lets pass, by a viewer whose id is n letters long. */
  function Anyone(p: Policy, source: Source, n: nat): (r: Request)
    requires source in p.rules
    ensures Eligible(p.rules[source], r) && r.source == source && |r.userId| == n
  {
    var rule := p.rules[source];
    Request(source, seq(n, _ => 'v'), Badges(true, true, true, true), Some(rule.rewardId), rule.minimum, rule.minimum)
  }

  ghost predicate ShortIds(b: Bot, n: nat) {
    && (forall u :: u in b.store.users ==> |u| < n)
    && (forall i :: 0 <= i < |b.pending| ==> |b.pending[i].req.userId| < n)
  }

  /** No handler under way, n grants so far, all to viewers with ids shorter than n. */
  ghost predicate Idle(b: Bot, n: nat) { Books(b) && b.pending == [] && |b.history| == n && ShortIds(b, n) }

  /** Both counts are below their caps. */
  ghost predicate Admits(p: Policy, b: Bot) {
    && CountSince(b.store.events, b.now - MINUTE) < p.maxPerMinute
    && CountSince(b.store.events, b.store.streamStartedAt) < p.maxPerStream
  }

  /** k more grants, all now. */
  ghost predicate Grown(b: Bot, c: Bot, k: nat) {
    && c.now == b.now && c.session == b.session && c.store.streamStartedAt == b.store.streamStartedAt
    && b.history <= c.history && |c.history| == |b.history| + k
    && forall i :: |b.history| <= i < |c.history| ==> c.history[i].at == b.now
  }

  lemma GrownTrans(b: Bot, c: Bot, d: Bot, m: nat, n: nat)
    requires Grown(b, c, m) && Grown(c, d, n)
    ensures Grown(b, d, m + n)
  {
  }

  lemma RunNone(p: Policy, b: Bot)
    requires p.Complete()
    ensures Run(p, b, []) == b && Grown(b, b, 0)
    ensures forall k: nat :: |b.pending| <= k ==> InFlight(p, b, [], k)
    ensures forall n: nat :: Idle(b, n) ==> InFlight(p, b, [], 1)
  {
  }

  function Begins(p: Policy, n: nat, k: nat): seq<Step>
    requires p.Complete()
    decreases k
  {
    if k == 0 then [] else [Begin(Anyone(p, Chat, n))] + Begins(p, n + 1, k - 1)
  }

  const CODE := "code"

  function Finishes(k: nat): seq<Step> { if k == 0 then [] else [Finish(0, true, CODE)] + Finishes(k - 1) }

  /** k handlers that all pass the policy before any of them records. */
  function Batch(p: Policy, n: nat, k: nat): seq<Step>
    requires p.Complete()
  {
    Begins(p, n, k) + Finishes(k)
  }

  lemma BeginPasses(p: Policy, b: Bot, n: nat)
    requires p.Complete() && Admits(p, b) && ShortIds(b, n)
    ensures var c := Next(p, b, Begin(Anyone(p, Chat, n)));
            && c == b.(pending := c.pending) && |c.pending| == |b.pending| + 1 && ShortIds(c, n + 1) && Admits(p, c)
  {
  }

  lemma {:induction false} BeginsPass(p: Policy, b: Bot, n: nat, k: nat, most: nat)
    requires p.Complete() && Admits(p, b) && ShortIds(b, n) && |b.pending| + k <= most
    ensures var c := Run(p, b, Begins(p, n, k));
            && c == b.(pending := c.pending) && |c.pending| == |b.pending| + k && ShortIds(c, n + k)
    ensures InFlight(p, b, Begins(p, n, k), most)
    decreases k
  {
    hide ShortIds, Admits, Run, InFlight, Next;
    if k > 0 {
      var x := Begin(Anyone(p, Chat, n));
      BeginPasses(p, b, n);
      RunCons(p, b, x, Begins(p, n + 1, k - 1), most);
      BeginsPass(p, Next(p, b, x), n + 1, k - 1, most);
    } else {
      RunNone(p, b);
    }
  }

  lemma FinishRecords(p: Policy, b: Bot, n: nat)
    requires p.Complete() && Books(b) && ShortIds(b, n) && b.pending != []
    ensures var c := Next(p, b, Finish(0, true, CODE));
            Books(c) && ShortIds(c, n) && |c.pending| == |b.pending| - 1 && Grown(b, c, 1)
  {
    NextBooks(p, b, Finish(0, true, CODE));
  }

  lemma {:induction false} FinishesRecord(p: Policy, b: Bot, n: nat, k: nat, most: nat)
    requires p.Complete() && Books(b) && ShortIds(b, n) && |b.pending| == k <= most
    ensures var c := Run(p, b, Finishes(k)); Books(c) && ShortIds(c, n) && c.pending == [] && Grown(b, c, k)
    ensures InFlight(p, b, Finishes(k), most)
    decreases k
  {
    hide Books, ShortIds, Grown, Next, Run, InFlight;
    if k > 0 {
      var x := Finish(0, true, CODE);
      FinishRecords(p, b, n);
      RunCons(p, b, x, Finishes(k - 1), most);
      var c := Next(p, b, x);
      FinishesRecord(p, c, n, k - 1, most);
      GrownTrans(b, c, Run(p, c, Finishes(k - 1)), 1, k - 1);
    } else {
      RunNone(p, b);
    }
  }

  /** However few grants the caps still admit, k handlers that begin before any finishes all record. */
  lemma BatchRecords(p: Policy, b: Bot, n: nat, k: nat)
    requires p.Complete() && Idle(b, n) && Admits(p, b)
    ensures var c := Run(p, b, Batch(p, n, k)); Grown(b, c, k) && Idle(c, n + k)
    ensures InFlight(p, b, Batch(p, n, k), k)
  {
    BeginsPass(p, b, n, k, k);
    var c := Run(p, b, Begins(p, n, k));
    FinishesRecord(p, c, n + k, k, k);
    RunAppend(p, b, Begins(p, n, k), Finishes(k), k);
  }

  // ---- Handlers one after the other ----------------------------------------

  function Burst(p: Policy, n: nat, c: nat): seq<Step>
    requires p.Complete()
    decreases c
  {
    if c == 0 then [] else Batch(p, n, 1) + Burst(p, n + 1, c - 1)
  }

  lemma IdleAdmits(p: Policy, b: Bot, n: nat)
    requires Idle(b, n)
    requires p.maxPerMinute > MAX_EVENTS || n < p.maxPerMinute
    requires p.maxPerStream > MAX_EVENTS || CountSince(b.history, b.store.streamStartedAt) < p.maxPerStream
    ensures Admits(p, b)
  {
    TrimmedCount(b.history, b.now - MINUTE);
    TrimmedCount(b.history, b.store.streamStartedAt);
  }

  lemma {:induction false} CountAll(events: seq<Event>, since: int)
    requires forall i :: 0 <= i < |events| ==> events[i].at >= since
    ensures CountSince(events, since) == |events|
  {
    if events != [] {
      CountAll(events[..|events| - 1], since);
    }
  }

  lemma GrownCount(b: Bot, c: Bot, n: nat, k: nat)
    requires Idle(b, n) && Grown(b, c, k)
    ensures CountSince(c.history, c.store.streamStartedAt) == CountSince(b.history, b.store.streamStartedAt) + k
  {
    var more := c.history[n..];
    assert c.history == b.history + more;
    CountAppend(b.history, more, c.store.streamStartedAt);
    CountAll(more, c.store.streamStartedAt);
  }

  /** Up to a cap, or past it when it exceeds 500, handlers that do not overlap all record at once. */
  lemma {:induction false} BurstRecords(p: Policy, b: Bot, n: nat, c: nat)
    requires p.Complete() && Idle(b, n)
    requires p.maxPerMinute > MAX_EVENTS || n + c <= p.maxPerMinute
    requires p.maxPerStream > MAX_EVENTS || CountSince(b.history, b.store.streamStartedAt) + c <= p.maxPerStream
    ensures var e := Run(p, b, Burst(p, n, c)); Grown(b, e, c) && Idle(e, n + c)
    ensures InFlight(p, b, Burst(p, n, c), 1)
    decreases c
  {
    hide Batch, CountSince, Grown, Idle, Admits, Run, InFlight;
    if c > 0 {
      IdleAdmits(p, b, n);
      BatchRecords(p, b, n, 1);
      var d := Run(p, b, Batch(p, n, 1));
      GrownCount(b, d, n, 1);
      BurstRecords(p, d, n + 1, c - 1);
      RunAppend(p, b, Batch(p, n, 1), Burst(p, n + 1, c - 1), 1);
      GrownTrans(b, d, Run(p, d, Burst(p, n + 1, c - 1)), 1, c - 1);
    } else {
      RunNone(p, b);
    }
  }

  // ---- A minute with many stream sessions ----------------------------------

  const NEXT_SESSION := [Wait(1), NewStream]

  /** c grants one after the other, then k handlers together. */
  function Crowd(p: Policy, n: nat, c: nat, k: nat): seq<Step>
    requires p.Complete()
  {
    Burst(p, n, c) + Batch(p, n + c, k)
  }

  /** `slots` stream sessions, a millisecond apart, of c + k grants each. */
  function Sessions(p: Policy, n: nat, c: nat, k: nat, slots: nat): seq<Step>
    requires p.Complete()
    decreases slots
  {
    if slots == 0 then [] else NEXT_SESSION + (Crowd(p, n, c, k) + Sessions(p, n + c + k, c, k, slots - 1))
  }

  /** k more grants within the next d milliseconds. */
  ghost predicate Spread(b: Bot, c: Bot, k: nat, d: nat) {
    && c.now == b.now + d && b.history <= c.history && |c.history| == |b.history| + k
    && forall i :: |b.history| <= i < |c.history| ==> b.now < c.history[i].at <= c.now
  }

  lemma SessionStarts(p: Policy, b: Bot, n: nat)
    requires p.Complete() && Idle(b, n)
    ensures var c := Run(p, b, NEXT_SESSION);
            && Idle(c, n) && Spread(b, c, 0, 1) && CountSince(c.history, c.store.streamStartedAt) == 0
    ensures InFlight(p, b, NEXT_SESSION, 1)
  {
    assert NEXT_SESSION[1..] == [NewStream] && [NewStream][1..] == [];
    CountNone(b.history, b.now + 1);
  }

  lemma SpreadThenGrown(b: Bot, c: Bot, d: Bot, k: nat)
    requires Spread(b, c, 0, 1) && Grown(c, d, k)
    ensures Spread(b, d, k, 1)
  {
  }

  lemma SpreadTrans(b: Bot, c: Bot, d: Bot, k: nat, m: nat, x: nat, y: nat)
    requires Spread(b, c, k, x) && Spread(c, d, m, y)
    ensures Spread(b, d, k + m, x + y)
  {
  }

  lemma SpreadNone(b: Bot)
    ensures Spread(b, b, 0, 0)
  {
  }

  /** In one millisecond: up to the last grant a cap allows, then k handlers together. */
  lemma CrowdRecords(p: Policy, b: Bot, n: nat, c: nat, k: nat)
    requires p.Complete() && Idle(b, n) && k > 0 && CountSince(b.history, b.store.streamStartedAt) == 0
    requires p.maxPerMinute > MAX_EVENTS || n + c < p.maxPerMinute
    requires p.maxPerStream > MAX_EVENTS || c < p.maxPerStream
    ensures var e := Run(p, b, Crowd(p, n, c, k)); Grown(b, e, c + k) && Idle(e, n + c + k)
    ensures InFlight(p, b, Crowd(p, n, c, k), k)
  {
    hide Burst, Batch, CountSince, Grown, Idle, Admits, Run, InFlight;
    BurstRecords(p, b, n, c);
    var d := Run(p, b, Burst(p, n, c));
    GrownCount(b, d, n, c);
    IdleAdmits(p, d, n + c);
    BatchRecords(p, d, n + c, k);
    InFlightMono(p, b, Burst(p, n, c), 1, k);
    RunAppend(p, b, Burst(p, n, c), Batch(p, n + c, k), k);
    GrownTrans(b, d, Run(p, d, Batch(p, n + c, k)), c, k);
  }

  lemma OneSession(p: Policy, b: Bot, n: nat, c: nat, k: nat)
    requires p.Complete() && Idle(b, n) && k > 0
    requires p.maxPerMinute > MAX_EVENTS || n + c < p.maxPerMinute
    requires p.maxPerStream > MAX_EVENTS || c < p.maxPerStream
    ensures var e := Run(p, b, NEXT_SESSION + Crowd(p, n, c, k)); Spread(b, e, c + k, 1) && Idle(e, n + c + k)
    ensures InFlight(p, b, NEXT_SESSION + Crowd(p, n, c, k), k)
  {
    hide Crowd, CountSince, Grown, Spread, Idle, Run, InFlight;
    SessionStarts(p, b, n);
    var d := Run(p, b, NEXT_SESSION);
    CrowdRecords(p, d, n, c, k);
    InFlightMono(p, b, NEXT_SESSION, 1, k);
    RunAppend(p, b, NEXT_SESSION, Crowd(p, n, c, k), k);
    SpreadThenGrown(b, d, Run(p, d, Crowd(p, n, c, k)), c + k);
  }

  lemma {:induction false} SessionsRecord(p: Policy, b: Bot, n: nat, c: nat, k: nat, slots: nat, total: nat)
    requires p.Complete() && Idle(b, n) && k > 0 && total == Times(slots, c + k)
    requires p.maxPerMinute > MAX_EVENTS || n + total <= p.maxPerMinute
    requires p.maxPerStream > MAX_EVENTS || c < p.maxPerStream
    ensures var e := Run(p, b, Sessions(p, n, c, k, slots)); Spread(b, e, total, slots) && Idle(e, n + total)
    ensures InFlight(p, b, Sessions(p, n, c, k, slots), k)
    decreases slots
  {
    hide Crowd, Spread, Idle, Run, InFlight;
    if slots > 0 {
      var first, rest := NEXT_SESSION + Crowd(p, n, c, k), Sessions(p, n + c + k, c, k, slots - 1);
      assert total == Times(slots - 1, c + k) + (c + k);
      OneSession(p, b, n, c, k);
      var d := Run(p, b, first);
      SessionsRecord(p, d, n + c + k, c, k, slots - 1, total - (c + k));
      RunAppend(p, b, first, rest, k);
      Assoc(NEXT_SESSION, Crowd(p, n, c, k), rest);
      SpreadTrans(b, d, Run(p, d, rest), c + k, total - (c + k), 1, slots - 1);
    } else {
      IdleIsFree(p, b, n, k);
      SpreadNone(b);
    }
  }

  lemma IdleIsFree(p: Policy, b: Bot, n: nat, k: nat)
    requires p.Complete() && Idle(b, n)
    ensures Run(p, b, []) == b && InFlight(p, b, [], k)
  {
  }

  // ---- A session of many minutes -------------------------------------------

  /** Grants more than a minute apart. */
  function Slowly(p: Policy, n: nat, q: nat): seq<Step>
    requires p.Complete()
    decreases q
  {
    if q == 0 then [] else (Batch(p, n, 1) + [Wait(MINUTE + 1)]) + Slowly(p, n + 1, q - 1)
  }

  /** Idle, and nothing granted within the last minute. */
  ghost predicate Quiet(b: Bot, n: nat) {
    Idle(b, n) && forall i :: 0 <= i < |b.history| ==> b.history[i].at < b.now - MINUTE
  }

  lemma QuietAdmits(p: Policy, b: Bot, n: nat)
    requires Quiet(b, n) && p.maxPerMinute > 0 && (p.maxPerStream > MAX_EVENTS || n < p.maxPerStream)
    ensures Admits(p, b)
  {
    TrimmedCount(b.history, b.now - MINUTE);
    CountNone(b.history, b.now - MINUTE);
  }

  lemma QuietAgain(p: Policy, b: Bot, n: nat)
    requires p.Complete() && Idle(b, n)
    ensures var c := Run(p, b, [Wait(MINUTE + 1)]); Quiet(c, n) && c.session == b.session
    ensures InFlight(p, b, [Wait(MINUTE + 1)], 1)
  {
    assert [Wait(MINUTE + 1)][1..] == [];
  }

  lemma OneSlowly(p: Policy, b: Bot, n: nat)
    requires p.Complete() && Quiet(b, n) && p.maxPerMinute > 0 && (p.maxPerStream > MAX_EVENTS || n < p.maxPerStream)
    ensures var steps := Batch(p, n, 1) + [Wait(MINUTE + 1)];
            var c := Run(p, b, steps);
            Quiet(c, n + 1) && c.session == b.session && InFlight(p, b, steps, 1)
  {
    hide Batch, Run, InFlight;
    QuietAdmits(p, b, n);
    BatchRecords(p, b, n, 1);
    QuietAgain(p, Run(p, b, Batch(p, n, 1)), n + 1);
    RunAppend(p, b, Batch(p, n, 1), [Wait(MINUTE + 1)], 1);
  }

  lemma {:induction false} SlowlyRecords(p: Policy, b: Bot, n: nat, q: nat)
    requires p.Complete() && Quiet(b, n) && p.maxPerMinute > 0
    requires p.maxPerStream > MAX_EVENTS || n + q <= p.maxPerStream
    ensures var c := Run(p, b, Slowly(p, n, q)); Quiet(c, n + q) && c.session == b.session
    ensures InFlight(p, b, Slowly(p, n, q), 1)
    decreases q
  {
    hide Batch, Quiet, Run, InFlight;
    if q > 0 {
      var first := Batch(p, n, 1) + [Wait(MINUTE + 1)];
      OneSlowly(p, b, n);
      SlowlyRecords(p, Run(p, b, first), n + 1, q - 1);
      RunAppend(p, b, first, Slowly(p, n + 1, q - 1), 1);
    } else {
      QuietIsIdle(b, n);
      RunNone(p, b);
    }
  }

  lemma QuietIsIdle(b: Bot, n: nat)
    requires Quiet(b, n)
    ensures Idle(b, n)
  {
  }

  // ---- The exact conditions ------------------------------------------------

  /** In every run with at most k handlers under way no minute holds more than `cap` grants. */
  ghost predicate MinuteAtMost(p: Policy, start: int, k: nat, cap: int)
    requires p.Complete()
  {
    forall steps :: InFlight(p, Fresh(start), steps, k) ==> PerMinute(Run(p, Fresh(start), steps).history, cap)
  }

  /** In every such run no stream session does. */
  ghost predicate StreamAtMost(p: Policy, start: int, k: nat, cap: int)
    requires p.Complete()
  {
    forall steps :: InFlight(p, Fresh(start), steps, k) ==>
      var b := Run(p, Fresh(start), steps); |b.history| - b.session <= cap
  }

  lemma FreshIsQuiet(start: int)
    ensures Idle(Fresh(start), 0) && Quiet(Fresh(start), 0)
  {
  }

  lemma NoGrantsAtAll(p: Policy, start: int, steps: seq<Step>, k: nat)
    requires p.Complete() && (p.maxPerMinute == 0 || p.maxPerStream == 0) && InFlight(p, Fresh(start), steps, k)
    ensures Run(p, Fresh(start), steps).history == []
  {
    ReachableInv(p, start, steps, k);
    var b := Run(p, Fresh(start), steps);
    if b.history != [] {
      GiverFacts(p, b, 0);
    }
  }

  lemma CrowdedMinute(b: Bot, c: Bot, k: nat, d: nat, cap: int)
    requires b.history == [] && Spread(b, c, k, d) && d <= MINUTE + 1 && k > cap && k > 0
    ensures !PerMinute(c.history, cap)
  {
    assert c.history[k - 1].at - c.history[0].at <= MINUTE;
  }

  /** The fullest minute: sessions of one grant each up to the last grant allowed, then k handlers together. */
  lemma FullestMinute(p: Policy, start: int, k: nat) returns (steps: seq<Step>)
    requires p.Complete() && 0 < p.maxPerMinute <= 500 && p.maxPerStream > 0 && k > 0
    ensures InFlight(p, Fresh(start), steps, k)
    ensures Spread(Fresh(start), Run(p, Fresh(start), steps), p.maxPerMinute + k - 1, p.maxPerMinute)
  {
    hide Spread, Grown, Batch, Sessions, Run, InFlight, CountSince, Times;
    var b, n := Fresh(start), p.maxPerMinute - 1;
    var s := Sessions(p, 0, 0, 1, n);
    FreshIsQuiet(start);
    TimesIsProduct(n, 1);
    SessionsRecord(p, b, 0, 0, 1, n, n);
    var c := Run(p, b, s);
    SessionStarts(p, c, n);
    var d := Run(p, c, NEXT_SESSION);
    IdleAdmits(p, d, n);
    BatchRecords(p, d, n, k);
    InFlightMono(p, b, s, 1, k);
    InFlightMono(p, c, NEXT_SESSION, 1, k);
    RunAppend(p, c, NEXT_SESSION, Batch(p, n, k), k);
    RunAppend(p, b, s, NEXT_SESSION + Batch(p, n, k), k);
    steps := s + (NEXT_SESSION + Batch(p, n, k));
    SpreadThenGrown(c, d, Run(p, d, Batch(p, n, k)), k);
    SpreadTrans(b, c, Run(p, d, Batch(p, n, k)), n, k, n, 1);
  }

  /** With at most k handlers under way, maxPerMinute + k - 1 is the exact limit on the grants of a minute. */
  lemma MinuteBoundExact(p: Policy, start: int, k: nat, cap: int)
    requires p.Complete() && 0 < p.maxPerMinute <= 500 && p.maxPerStream > 0 && k > 0
    ensures MinuteAtMost(p, start, k, cap) <==> cap >= p.maxPerMinute + k - 1
  {
    hide Run, InFlight;
    if cap >= p.maxPerMinute + k - 1 {
      forall steps | InFlight(p, Fresh(start), steps, k)
        ensures PerMinute(Run(p, Fresh(start), steps).history, cap)
      {
        MinuteBound(p, start, steps, k);
      }
    } else {
      var steps := FullestMinute(p, start, k);
      CrowdedMinute(Fresh(start), Run(p, Fresh(start), steps), p.maxPerMinute + k - 1, p.maxPerMinute, cap);
    }
  }

  /** With at most k handlers under way and a stream cap up to 500 no minute holds more than a session of
      maxPerStream + k - 1 grants every millisecond, whatever maxPerMinute is. */
  lemma StreamCapBoundsMinute(p: Policy, start: int, steps: seq<Step>, k: nat)
    requires p.Complete() && k > 0 && InFlight(p, Fresh(start), steps, k) && p.maxPerStream <= 500
    ensures PerMinute(Run(p, Fresh(start), steps).history, Times(MINUTE + 1, p.maxPerStream + k - 1))
  {
    hide Run, InFlight, Inv, Times;
    ReachableInv(p, start, steps, k);
    var b := Run(p, Fresh(start), steps);
    forall i, j | 0 <= i <= j < |b.history| && b.history[j].at - b.history[i].at <= MINUTE
      ensures j - i + 1 <= Times(MINUTE + 1, p.maxPerStream + k - 1)
    {
      SpanOfInstants(p, b, i, j, MINUTE, k);
    }
  }

  /** A minute of `slots` sessions with c + k grants each exceeds any smaller cap. */
  lemma OverfullMinute(p: Policy, start: int, c: nat, k: nat, slots: nat, cap: int)
    requires p.Complete() && k > 0 && p.maxPerMinute > 500 && (p.maxPerStream > 500 || c < p.maxPerStream)
    requires 0 < slots <= MINUTE + 1 && cap < Times(slots, c + k)
    ensures !MinuteAtMost(p, start, k, cap)
  {
    hide Run, InFlight, Spread, PerMinute, Sessions;
    var steps, total := Sessions(p, 0, c, k, slots), Times(slots, c + k);
    FreshIsQuiet(start);
    SessionsRecord(p, Fresh(start), 0, c, k, slots, total);
    CrowdedMinute(Fresh(start), Run(p, Fresh(start), steps), total, slots, cap);
  }

  /** A per-minute limit above 500 limits nothing: what limits a minute is the stream cap, exactly, unless that is
      above 500 too. */
  lemma MinuteAboveExact(p: Policy, start: int, k: nat, cap: int)
    requires p.Complete() && p.maxPerMinute > 500 && p.maxPerStream > 0 && k > 0
    ensures MinuteAtMost(p, start, k, cap) <==>
            p.maxPerStream <= 500 && cap >= 60_001 * (p.maxPerStream + k - 1)
  {
    hide Run, InFlight, Times;
    TimesIsProduct(MINUTE + 1, p.maxPerStream + k - 1);
    if p.maxPerStream > 500 {
      var c := if cap < 0 then 0 else cap;
      TimesIsProduct(1, c + k);
      OverfullMinute(p, start, c, k, 1, cap);
    } else if cap < 60_001 * (p.maxPerStream + k - 1) {
      OverfullMinute(p, start, p.maxPerStream - 1, k, MINUTE + 1, cap);
    } else {
      forall steps | InFlight(p, Fresh(start), steps, k)
        ensures PerMinute(Run(p, Fresh(start), steps).history, cap)
      {
        StreamCapBoundsMinute(p, start, steps, k);
      }
    }
  }

  /** Handlers that do not overlap keep the per-minute limit in every run iff the limit is at most 500, or the
      stream cap alone keeps it. */
  lemma MinuteLimitExact(p: Policy, start: int)
    requires p.Complete()
    ensures MinuteAtMost(p, start, 1, p.maxPerMinute) <==>
            || p.maxPerMinute <= 500 || p.maxPerStream == 0
            || (p.maxPerStream <= 500 && p.maxPerMinute >= 60_001 * p.maxPerStream)
  {
    hide Run, InFlight;
    if p.maxPerMinute > 500 && p.maxPerStream > 0 {
      MinuteAboveExact(p, start, 1, p.maxPerMinute);
    } else {
      forall steps | InFlight(p, Fresh(start), steps, 1)
        ensures PerMinute(Run(p, Fresh(start), steps).history, p.maxPerMinute)
      {
        if p.maxPerMinute <= 500 {
          MinuteBound(p, start, steps, 1);
        } else {
          NoGrantsAtAll(p, start, steps, 1);
        }
      }
    }
  }

  /** The fullest session: grants a minute apart up to the last one allowed, then k handlers together. */
  lemma FullestSession(p: Policy, start: int, k: nat) returns (steps: seq<Step>)
    requires p.Complete() && 0 < p.maxPerStream <= 500 && p.maxPerMinute > 0 && k > 0
    ensures InFlight(p, Fresh(start), steps, k)
    ensures var c := Run(p, Fresh(start), steps); |c.history| == p.maxPerStream + k - 1 && c.session == 0
  {
    hide Batch, Slowly, Run, InFlight, Quiet;
    var b, n := Fresh(start), p.maxPerStream - 1;
    var s := Slowly(p, 0, n);
    FreshIsQuiet(start);
    SlowlyRecords(p, b, 0, n);
    var c := Run(p, b, s);
    QuietIsIdle(c, n);
    QuietAdmits(p, c, n);
    BatchRecords(p, c, n, k);
    InFlightMono(p, b, s, 1, k);
    RunAppend(p, b, s, Batch(p, n, k), k);
    steps := s + Batch(p, n, k);
  }

  /** With at most k handlers under way, maxPerStream + k - 1 is the exact limit on the grants of a session. */
  lemma StreamBoundExact(p: Policy, start: int, k: nat, cap: int)
    requires p.Complete() && 0 < p.maxPerStream <= 500 && p.maxPerMinute > 0 && k > 0
    ensures StreamAtMost(p, start, k, cap) <==> cap >= p.maxPerStream + k - 1
  {
    hide Run, InFlight;
    if cap >= p.maxPerStream + k - 1 {
      forall steps | InFlight(p, Fresh(start), steps, k)
        ensures var b := Run(p, Fresh(start), steps); |b.history| - b.session <= cap
      {
        StreamBound(p, start, steps, k);
      }
    } else {
      var steps := FullestSession(p, start, k);
      assert |Run(p, Fresh(start), steps).history| > cap;
    }
  }

  /** A stream cap above 500 limits nothing: one session holds any number of grants. */
  lemma StreamAboveUnbounded(p: Policy, start: int, k: nat, cap: int)
    requires p.Complete() && p.maxPerStream > 500 && p.maxPerMinute > 0 && k > 0
    ensures !StreamAtMost(p, start, k, cap)
  {
    hide Run, InFlight, Quiet, Slowly;
    var q := if cap < 0 then 0 else cap + 1;
    var steps := Slowly(p, 0, q);
    FreshIsQuiet(start);
    SlowlyRecords(p, Fresh(start), 0, q);
    InFlightMono(p, Fresh(start), steps, 1, k);
    QuietIsIdle(Run(p, Fresh(start), steps), q);
  }

  /** Handlers that do not overlap keep the per-stream cap in every run iff the cap is at most 500, or nothing is
      ever granted. */
  lemma StreamLimitExact(p: Policy, start: int)
    requires p.Complete()
    ensures StreamAtMost(p, start, 1, p.maxPerStream) <==> p.maxPerStream <= 500 || p.maxPerMinute == 0
  {
    hide Run, InFlight;
    if p.maxPerStream > 500 && p.maxPerMinute > 0 {
      StreamAboveUnbounded(p, start, 1, p.maxPerStream);
    } else {
      forall steps | InFlight(p, Fresh(start), steps, 1)
        ensures var b := Run(p, Fresh(start), steps); |b.history| - b.session <= p.maxPerStream
      {
        if p.maxPerStream <= 500 {
          StreamBound(p, start, steps, 1);
        } else {
          NoGrantsAtAll(p, start, steps, 1);
        }
      }
    }
  }

  // ---- Cooldowns -----------------------------------------------------------

  ghost predicate CooldownsAlways(p: Policy, start: int, k: nat)
    requires p.Complete()
  {
    forall steps :: InFlight(p, Fresh(start), steps, k) ==> Cooldowns(p, Run(p, Fresh(start), steps).history)
  }

  lemma {:induction false} AloneIsOnePerUser(p: Policy, b: Bot, steps: seq<Step>)
    requires p.Complete() && InFlight(p, b, steps, 1)
    ensures OnePerUser(p, b, steps)
    decreases |steps|
  {
    if steps != [] {
      AloneIsOnePerUser(p, Next(p, b, steps[0]), steps[1..]);
    }
  }

  lemma ZeroCooldowns(p: Policy, start: int, steps: seq<Step>, k: nat)
    requires p.Complete() && InFlight(p, Fresh(start), steps, k) && forall source :: CooldownOf(p, source) == 0
    ensures Cooldowns(p, Run(p, Fresh(start), steps).history)
  {
    hide Run, InFlight;
    ReachableInv(p, start, steps, k);
  }

  lemma TwoFinish(p: Policy, b: Bot, h: Handler)
    requires p.Complete() && b.pending == [h, h] && b.history == []
    ensures Run(p, b, Finishes(2)).history == [EventOf(h, CODE, b.now), EventOf(h, CODE, b.now)]
    ensures InFlight(p, b, Finishes(2), 2)
  {
    hide Run, InFlight, Record;
    var f, c := Finish(0, true, CODE), Next(p, b, Finish(0, true, CODE));
    assert Finishes(1) == [f] && Finishes(2) == [f] + Finishes(1);
    assert c.pending == [h] && Next(p, c, f).pending == [];
    RunCons(p, b, f, Finishes(1), 2);
    RunCons(p, c, f, [], 2);
    RunNone(p, Next(p, c, f));
  }

  /** Two requests of one viewer at once both pass and both record. */
  lemma TwiceAtOnce(p: Policy, start: int, source: Source) returns (steps: seq<Step>)
    requires p.Complete() && p.maxPerMinute > 0 && p.maxPerStream > 0 && CooldownOf(p, source) > 0
    ensures InFlight(p, Fresh(start), steps, 2) && !Cooldowns(p, Run(p, Fresh(start), steps).history)
  {
    hide Run, InFlight, Finishes;
    var b, r := Fresh(start), Anyone(p, source, 0);
    var h := Handler(r, start, 0, start);
    var c, d := b.(pending := [h]), b.(pending := [h, h]);
    assert Next(p, b, Begin(r)) == c && Next(p, c, Begin(r)) == d;
    steps := [Begin(r)] + ([Begin(r)] + Finishes(2));
    RunCons(p, b, Begin(r), [Begin(r)] + Finishes(2), 2);
    RunCons(p, c, Begin(r), Finishes(2), 2);
    TwoFinish(p, d, h);
    var both := Run(p, d, Finishes(2)).history;
    assert both[0].userId == both[1].userId && both[0].at == both[1].at && both[1].source == source;
  }

  /** Cooldowns are kept in every run with at most k handlers under way iff handlers do not overlap, no source has
      a cooldown, or nothing is ever granted. */
  lemma CooldownExact(p: Policy, start: int, k: nat)
    requires p.Complete()
    ensures CooldownsAlways(p, start, k) <==>
            k <= 1 || p.maxPerMinute == 0 || p.maxPerStream == 0 || forall source :: CooldownOf(p, source) == 0
  {
    hide Run, InFlight;
    if k > 1 && p.maxPerMinute > 0 && p.maxPerStream > 0 && exists source :: CooldownOf(p, source) > 0 {
      var source :| CooldownOf(p, source) > 0;
      var steps := TwiceAtOnce(p, start, source);
      InFlightMono(p, Fresh(start), steps, 2, k);
    } else {
      forall steps | InFlight(p, Fresh(start), steps, k)
        ensures Cooldowns(p, Run(p, Fresh(start), steps).history)
      {
        if k <= 1 {
          InFlightMono(p, Fresh(start), steps, k, 1);
          AloneIsOnePerUser(p, Fresh(start), steps);
          CooldownHolds(p, start, steps);
        } else if p.maxPerMinute == 0 || p.maxPerStream == 0 {
          NoGrantsAtAll(p, start, steps, k);
        } else {
          ZeroCooldowns(p, start, steps, k);
        }
      }
    }
  }
}
