/** The Twitch bot's grant store and policy: sliding-window limits kept over a trimmed log. Times are milliseconds. */
module GrantLimits {
  import opened Common

  const MAX_EVENTS := 500
  const MINUTE := 60_000

  datatype Badges = Badges(sub: bool, vip: bool, mod: bool, broadcaster: bool)

  datatype Eligibility = Everyone | Subscribers | Vips | Mods

  datatype Source = Chat | ChannelPoints | Subscription | Cheer | Raid

  datatype Request = Request(source: Source, userId: string, badges: Badges, rewardId: Option<string>, bits: nat, raidViewers: nat)

  /** A source's rule: who is eligible, its own thresholds, and an optional cooldown of its own (seconds). */
  datatype Rule = Rule(eligibility: Eligibility, rewardId: string, minimum: nat, cooldown: Option<nat>)

  datatype Policy = Policy(rules: map<Source, Rule>, cooldown: nat, maxPerStream: nat, maxPerMinute: nat) {
    ghost predicate Complete() { forall s: Source :: s in rules }
  }

  datatype Event = Event(userId: string, source: Source, code: string, at: int)

  /** The persisted state: last grant per user, the most recent events, the start of the stream session. */
  datatype Store = Store(users: map<string, int>, events: seq<Event>, streamStartedAt: int)

  // ---- The store -----------------------------------------------------------

  function CountSince(events: seq<Event>, since: int): (n: nat)
    ensures n <= |events|
  {
    if events == [] then 0
    else CountSince(events[..|events| - 1], since) + (if events[|events| - 1].at >= since then 1 else 0)
  }

  function Recent(events: seq<Event>): seq<Event> {
    if |events| > MAX_EVENTS then events[|events| - MAX_EVENTS..] else events
  }

  function Record(s: Store, req: Request, code: string, now: int): Store {
    s.(users := s.users[req.userId := now],
       events := Recent(s.events + [Event(req.userId, req.source, code, now)]))
  }

  ghost predicate Sorted(events: seq<Event>) { forall i, j :: 0 <= i < j < |events| ==> events[i].at <= events[j].at }

  /** In a sorted log everything from an event at or after `since` on is counted. */
  lemma {:induction false} CountSorted(events: seq<Event>, since: int, i: nat)
    requires Sorted(events) && i <= |events|
    requires i < |events| ==> events[i].at >= since
    ensures CountSince(events, since) >= |events| - i
    decreases |events|
  {
    if i < |events| {
      CountSorted(events[..|events| - 1], since, i);
    }
  }

  lemma {:induction false} CountNone(events: seq<Event>, since: int)
    requires forall i :: 0 <= i < |events| ==> events[i].at < since
    ensures CountSince(events, since) == 0
  {
    if events != [] {
      CountNone(events[..|events| - 1], since);
    }
  }

  lemma {:induction false} CountAppend(a: seq<Event>, b: seq<Event>, since: int)
    ensures CountSince(a + b, since) == CountSince(a, since) + CountSince(b, since)
    decreases |b|
  {
    if b == [] {
      assert a + b == a;
    } else {
      var n := |a + b| - 1;
      assert (a + b)[..n] == a + b[..|b| - 1];
      CountAppend(a, b[..|b| - 1], since);
    }
  }

  /** The trimmed log counts the true number of grants since any time, up to 500. */
  lemma TrimmedCount(history: seq<Event>, since: int)
    requires Sorted(history)
    ensures CountSince(Recent(history), since) ==
            if CountSince(history, since) < 500 then CountSince(history, since) else 500
  {
    if |history| > MAX_EVENTS {
      var k := |history| - MAX_EVENTS;
      var dropped, kept := history[..k], history[k..];
      assert history == dropped + kept;
      CountAppend(dropped, kept, since);
      if dropped[k - 1].at < since {
        CountNone(dropped, since);
      } else {
        CountSorted(kept, since, 0);
      }
    }
  }

  /** The store object. */
  class GrantStore {
    var users: map<string, int>
    var events: seq<Event>
    var streamStartedAt: int

    ghost function View(): Store
      reads this
    {
      Store(users, events, streamStartedAt)
    }

    constructor (now: int)
      ensures View() == Store(map[], [], now)
    {
      users, events, streamStartedAt := map[], [], now;
    }

    method CountGrantsSince(since: int) returns (n: nat)
      ensures n == CountSince(events, since)
    {
      n := 0;
      for i := 0 to |events|
        invariant n == CountSince(events[..i], since)
      {
        assert events[..i + 1][..i] == events[..i];
        if events[i].at >= since {
          n := n + 1;
        }
      }
      assert events[..|events|] == events;
    }

    method RecordGrant(req: Request, code: string, now: int)
      modifies this
      ensures View() == Record(old(View()), req, code, now)
    {
      users := users[req.userId := now];
      events := events + [Event(req.userId, req.source, code, now)];
      if |events| > MAX_EVENTS {
        events := events[|events| - MAX_EVENTS..];
      }
    }

    method ResetStream(now: int)
      modifies this
      ensures View() == old(View()).(streamStartedAt := now)
    {
      streamStartedAt := now;
    }
  }

  // ---- The policy ----------------------------------------------------------

  predicate Meets(e: Eligibility, b: Badges) {
    match e
    case Everyone => true
    case Subscribers => b.sub || b.vip || b.mod || b.broadcaster
    case Vips => b.vip || b.mod || b.broadcaster
    case Mods => b.mod || b.broadcaster
  }

  predicate Eligible(rule: Rule, req: Request) {
    match req.source
    case Chat => Meets(rule.eligibility, req.badges)
    case ChannelPoints =>
      (rule.rewardId != "" ==> req.rewardId == Some(rule.rewardId)) && Meets(rule.eligibility, req.badges)
    case Subscription => Meets(rule.eligibility, req.badges)
    case Cheer => req.bits >= rule.minimum
    case Raid => req.raidViewers >= rule.minimum
  }

  datatype Verdict = Allowed | NotEligible | CoolingDown | RateLimited | StreamCapped

  /** The source's own cooldown, else the global one, in milliseconds. */
  function CooldownOf(p: Policy, source: Source): nat
    requires source in p.rules
  {
    1000 * (if p.rules[source].cooldown.Some? then p.rules[source].cooldown.value else p.cooldown)
  }

  function Evaluate(p: Policy, s: Store, req: Request, now: int): Verdict
    requires req.source in p.rules
  {
    var cooldown := CooldownOf(p, req.source);
    if !Eligible(p.rules[req.source], req) then NotEligible
    else if cooldown > 0 && req.userId in s.users && now - s.users[req.userId] < cooldown then CoolingDown
    else if CountSince(s.events, now - MINUTE) >= p.maxPerMinute then RateLimited
    else if CountSince(s.events, s.streamStartedAt) >= p.maxPerStream then StreamCapped
    else Allowed
  }

  // ---- Runs of overlapping handlers ----------------------------------------

  /** A handler that passed the policy: when it did, how many grants had been recorded by then, and when the stream
      session of that moment had started. */
  datatype Handler = Handler(req: Request, evaluatedAt: int, seen: nat, since: int)

  /** `pending` are the handlers under way. `history` is every grant ever recorded and `givers` the handlers that did so;
      the grants of the current stream session start at `session`. */
  datatype Bot = Bot(store: Store, now: int, pending: seq<Handler>, history: seq<Event>, givers: seq<Handler>, session: nat)

  function Fresh(now: int): Bot { Bot(Store(map[], [], now), now, [], [], [], 0) }

  /** Time passes, a request arrives, handler i ends with or without a delivery, a new stream session starts. */
  datatype Step =
    | Wait(ms: nat)
    | Begin(req: Request)
    | Finish(i: nat, delivered: bool, code: string)
    | NewStream

  function Without(pending: seq<Handler>, i: nat): seq<Handler>
    requires i < |pending|
  {
    pending[..i] + pending[i + 1..]
  }

  function EventOf(h: Handler, code: string, now: int): Event { Event(h.req.userId, h.req.source, code, now) }

  function Next(p: Policy, b: Bot, step: Step): Bot
    requires p.Complete()
  {
    match step
    case Wait(ms) => b.(now := b.now + ms)
    case Begin(req) =>
      if Evaluate(p, b.store, req, b.now) != Allowed then b
      else b.(pending := b.pending + [Handler(req, b.now, |b.history|, b.store.streamStartedAt)])
    case Finish(i, delivered, code) =>
      if i >= |b.pending| then b
      else if !delivered then b.(pending := Without(b.pending, i))
      else
        var h := b.pending[i];
        b.(pending := Without(b.pending, i), store := Record(b.store, h.req, code, b.now),
           history := b.history + [EventOf(h, code, b.now)], givers := b.givers + [h])
    case NewStream => b.(store := b.store.(streamStartedAt := b.now), session := |b.history|)
  }

  ghost function Run(p: Policy, b: Bot, steps: seq<Step>): Bot
    requires p.Complete()
    decreases |steps|
  {
    if steps == [] then b else Run(p, Next(p, b, steps[0]), steps[1..])
  }

  /** Never more than k handlers under way; with k == 1 handlers do not overlap. */
  ghost predicate InFlight(p: Policy, b: Bot, steps: seq<Step>, k: nat)
    requires p.Complete()
    decreases |steps|
  {
    |b.pending| <= k && (steps != [] ==> InFlight(p, Next(p, b, steps[0]), steps[1..], k))
  }

  // ---- Invariants ----------------------------------------------------------

  ghost predicate Books(b: Bot) {
    && b.store.events == Recent(b.history) && Sorted(b.history) && |b.givers| == |b.history|
    && (forall i :: 0 <= i < |b.history| ==> b.history[i].at <= b.now)
    && b.store.streamStartedAt <= b.now && b.session <= |b.history|
    && (forall i :: b.session <= i < |b.history| ==> b.history[i].at >= b.store.streamStartedAt)
  }

  /** What the policy saw when it let the handler pass. */
  ghost predicate Room(p: Policy, b: Bot, h: Handler) {
    && p.maxPerMinute > 0 && p.maxPerStream > 0
    && h.seen <= |b.history| && h.since <= h.evaluatedAt <= b.now
    && (p.maxPerMinute <= MAX_EVENTS ==> CountSince(b.history[..h.seen], h.evaluatedAt - MINUTE) < p.maxPerMinute)
    && (p.maxPerStream <= MAX_EVENTS ==> CountSince(b.history[..h.seen], h.since) < p.maxPerStream)
    && (h.seen > b.session ==> h.since == b.store.streamStartedAt)
  }

  ghost predicate Checked(p: Policy, b: Bot) {
    && |b.givers| == |b.history|
    && (forall i :: 0 <= i < |b.pending| ==> Room(p, b, b.pending[i]))
    && (forall i :: 0 <= i < |b.givers| ==> Room(p, b, b.givers[i]) && b.givers[i].seen <= i && b.givers[i].evaluatedAt <= b.history[i].at)
  }

  /** How many of the handlers had passed the policy by the time n grants were recorded. */
  ghost function Early(hs: seq<Handler>, n: nat): nat {
    if hs == [] then 0 else Early(hs[..|hs| - 1], n) + (if hs[|hs| - 1].seen <= n then 1 else 0)
  }

  /** Handlers that had passed by grant n and had not finished then were all under way together. */
  ghost predicate Overlap(b: Bot, k: nat) {
    |b.givers| == |b.history| && forall n: nat :: n <= |b.givers| ==> Early(b.givers[n..], n) + Early(b.pending, n) <= k
  }

  ghost predicate Inv(p: Policy, b: Bot, k: nat) { Books(b) && Checked(p, b) && Overlap(b, k) }

  lemma {:induction false} EarlyAppend(a: seq<Handler>, c: seq<Handler>, n: nat)
    ensures Early(a + c, n) == Early(a, n) + Early(c, n)
    decreases |c|
  {
    if c == [] {
      assert a + c == a;
    } else {
      assert (a + c)[..|a + c| - 1] == a + c[..|c| - 1];
      EarlyAppend(a, c[..|c| - 1], n);
    }
  }

  lemma {:induction false} EarlyBound(hs: seq<Handler>, n: nat)
    ensures Early(hs, n) <= |hs|
    ensures (forall i :: 0 <= i < |hs| ==> hs[i].seen <= n) ==> Early(hs, n) == |hs|
  {
    if hs != [] {
      EarlyBound(hs[..|hs| - 1], n);
    }
  }

  lemma EarlyWithout(hs: seq<Handler>, i: nat, n: nat)
    requires i < |hs|
    ensures Early(hs, n) == Early(Without(hs, i), n) + Early([hs[i]], n)
  {
    assert hs == hs[..i] + [hs[i]] + hs[i + 1..];
    EarlyAppend(hs[..i] + [hs[i]], hs[i + 1..], n);
    EarlyAppend(hs[..i], [hs[i]], n);
    EarlyAppend(hs[..i], hs[i + 1..], n);
  }

  lemma BeginOverlap(b: Bot, h: Handler, k: nat)
    requires Overlap(b, k) && |b.pending| < k && h.seen == |b.history|
    ensures Overlap(b.(pending := b.pending + [h]), k)
  {
    forall n: nat | n <= |b.givers|
      ensures Early(b.givers[n..], n) + Early(b.pending + [h], n) <= k
    {
      EarlyAppend(b.pending, [h], n);
      if n == |b.givers| {
        EarlyBound(b.pending + [h], n);
      } else {
        EarlyOne(h, n);
      }
    }
  }

  lemma EarlyOne(h: Handler, n: nat)
    ensures Early([h], n) == if h.seen <= n then 1 else 0
  {
    assert [h][..0] == [];
  }

  lemma DropOverlap(b: Bot, i: nat, k: nat)
    requires Overlap(b, k) && i < |b.pending|
    ensures Overlap(b.(pending := Without(b.pending, i)), k)
  {
    forall n: nat | n <= |b.givers|
      ensures Early(b.givers[n..], n) + Early(Without(b.pending, i), n) <= k
    {
      EarlyWithout(b.pending, i, n);
    }
  }

  lemma FinishOverlap(b: Bot, i: nat, e: Event, k: nat)
    requires Overlap(b, k) && i < |b.pending| <= k
    ensures Overlap(b.(pending := Without(b.pending, i), history := b.history + [e], givers := b.givers + [b.pending[i]]), k)
  {
    var h := b.pending[i];
    forall n: nat | n <= |b.givers + [h]|
      ensures Early((b.givers + [h])[n..], n) + Early(Without(b.pending, i), n) <= k
    {
      if n <= |b.givers| {
        assert (b.givers + [h])[n..] == b.givers[n..] + [h];
        EarlyAppend(b.givers[n..], [h], n);
        EarlyWithout(b.pending, i, n);
      } else {
        EarlyBound(Without(b.pending, i), n);
      }
    }
  }

  /** What passing the policy says about the true counts, although it looked only at the trimmed log. */
  lemma AllowedMeansRoom(p: Policy, b: Bot, req: Request)
    requires req.source in p.rules && Books(b) && Evaluate(p, b.store, req, b.now) == Allowed
    ensures p.maxPerMinute <= MAX_EVENTS ==> CountSince(b.history, b.now - MINUTE) < p.maxPerMinute
    ensures p.maxPerStream <= MAX_EVENTS ==> CountSince(b.history, b.store.streamStartedAt) < p.maxPerStream
    ensures p.maxPerMinute > 0 && p.maxPerStream > 0
  {
    TrimmedCount(b.history, b.now - MINUTE);
    TrimmedCount(b.history, b.store.streamStartedAt);
  }

  lemma RoomNow(p: Policy, b: Bot, req: Request)
    requires req.source in p.rules && Books(b) && Evaluate(p, b.store, req, b.now) == Allowed
    ensures Room(p, b, Handler(req, b.now, |b.history|, b.store.streamStartedAt))
  {
    AllowedMeansRoom(p, b, req);
    assert b.history[..|b.history|] == b.history;
  }

  /** A handler's room lasts: later steps only add grants behind what it saw. */
  lemma RoomLasts(p: Policy, b: Bot, step: Step, h: Handler)
    requires p.Complete() && Room(p, b, h)
    ensures Room(p, Next(p, b, step), h)
  {
    assert b.history <= Next(p, b, step).history;
    assert Next(p, b, step).history[..h.seen] == b.history[..h.seen];
  }

  lemma NextChecked(p: Policy, b: Bot, step: Step)
    requires p.Complete() && Books(b) && Checked(p, b)
    ensures Checked(p, Next(p, b, step))
  {
    hide Room;
    var b' := Next(p, b, step);
    forall i | 0 <= i < |b.pending| ensures Room(p, b', b.pending[i]) { RoomLasts(p, b, step, b.pending[i]); }
    forall i | 0 <= i < |b.givers| ensures Room(p, b', b.givers[i]) { RoomLasts(p, b, step, b.givers[i]); }
    if step.Begin? && b' != b {
      RoomNow(p, b, step.req);
      RoomLasts(p, b, step, b'.pending[|b.pending|]);
    }
    if step.Finish? && step.i < |b.pending| && step.delivered {
      RoomIsPast(p, b, b.pending[step.i]);
    }
  }

  lemma RoomIsPast(p: Policy, b: Bot, h: Handler)
    requires Room(p, b, h)
    ensures h.seen <= |b.history| && h.evaluatedAt <= b.now
  {
  }

  lemma RecentSnoc(history: seq<Event>, e: Event)
    ensures Recent(Recent(history) + [e]) == Recent(history + [e])
  {
  }

  lemma RecordBooks(b: Bot, h: Handler, code: string, pending: seq<Handler>)
    requires Books(b)
    ensures Books(b.(pending := pending, store := Record(b.store, h.req, code, b.now),
                     history := b.history + [EventOf(h, code, b.now)], givers := b.givers + [h]))
  {
    hide Recent;
    RecentSnoc(b.history, EventOf(h, code, b.now));
  }

  lemma NextBooks(p: Policy, b: Bot, step: Step)
    requires p.Complete() && Books(b)
    ensures Books(Next(p, b, step))
  {
    hide Recent, Record, EventOf;
    if step.Finish? && step.delivered && step.i < |b.pending| {
      RecordBooks(b, b.pending[step.i], step.code, Without(b.pending, step.i));
    }
  }

  lemma NextOverlap(p: Policy, b: Bot, step: Step, k: nat)
    requires p.Complete() && Overlap(b, k) && |b.pending| <= k && |Next(p, b, step).pending| <= k
    ensures Overlap(Next(p, b, step), k)
  {
    match step {
      case Begin(req) =>
        if Evaluate(p, b.store, req, b.now) == Allowed {
          BeginOverlap(b, Handler(req, b.now, |b.history|, b.store.streamStartedAt), k);
        }
      case Finish(i, delivered, code) =>
        if i < |b.pending| {
          if delivered {
            FinishOverlap(b, i, EventOf(b.pending[i], code, b.now), k);
          } else {
            DropOverlap(b, i, k);
          }
        }
      case Wait(_) =>
      case NewStream =>
    }
  }

  lemma {:induction false} RunKeeps(p: Policy, b: Bot, steps: seq<Step>, k: nat)
    requires p.Complete() && Inv(p, b, k) && InFlight(p, b, steps, k)
    ensures Inv(p, Run(p, b, steps), k)
    decreases |steps|
  {
    if steps != [] {
      NextBooks(p, b, steps[0]);
      NextChecked(p, b, steps[0]);
      NextOverlap(p, b, steps[0], k);
      RunKeeps(p, Next(p, b, steps[0]), steps[1..], k);
    }
  }

  lemma ReachableInv(p: Policy, start: int, steps: seq<Step>, k: nat)
    requires p.Complete() && InFlight(p, Fresh(start), steps, k)
    ensures Inv(p, Run(p, Fresh(start), steps), k)
  {
    RunKeeps(p, Fresh(start), steps, k);
  }

  // ---- The bounds ----------------------------------------------------------

  /** Of the grants i to j, one of those whose handler passed the policy last. */
  lemma {:induction false} LatestHandler(givers: seq<Handler>, i: nat, j: nat) returns (e: nat)
    requires i <= j < |givers|
    ensures i <= e <= j && forall x :: i <= x <= j ==> givers[x].seen <= givers[e].seen
    decreases j
  {
    e := j;
    if i < j {
      var f := LatestHandler(givers, i, j - 1);
      if givers[f].seen > givers[j].seen {
        e := f;
      }
    }
  }

  /** Grants m to j whose handlers had all passed by grant m were under way together. */
  lemma TogetherAtMost(b: Bot, m: nat, j: nat, k: nat)
    requires Overlap(b, k) && m <= j < |b.givers|
    requires forall x :: m <= x <= j ==> b.givers[x].seen <= m
    ensures j - m + 1 <= k
  {
    var late, rest := b.givers[m..j + 1], b.givers[j + 1..];
    assert b.givers[m..] == late + rest;
    EarlyAppend(late, rest, m);
    EarlyBound(late, m);
  }

  /** A run of grants in which the last one to pass the policy saw fewer than `cap` of those recorded before it
      holds at most cap + k - 1 of them. */
  lemma SpanBound(b: Bot, i: nat, j: nat, cap: nat, k: nat)
    requires Overlap(b, k) && i <= j < |b.givers| && cap > 0
    requires forall x :: i <= x <= j ==> b.givers[x].seen <= x && b.givers[x].seen - i < cap
    ensures j - i + 1 <= cap + k - 1
  {
    var e := LatestHandler(b.givers, i, j);
    var m := if b.givers[e].seen <= i then i else b.givers[e].seen;
    TogetherAtMost(b, m, j, k);
  }

  /** Grants in any minute are at most `cap`. */
  ghost predicate PerMinute(history: seq<Event>, cap: int) {
    forall i, j :: 0 <= i <= j < |history| && history[j].at - history[i].at <= 60_000 ==> j - i + 1 <= cap
  }

  /** With at most k handlers under way no minute holds more than maxPerMinute + k - 1 grants. */
  lemma MinuteBound(p: Policy, start: int, steps: seq<Step>, k: nat)
    requires p.Complete() && p.maxPerMinute <= 500 && InFlight(p, Fresh(start), steps, k)
    ensures PerMinute(Run(p, Fresh(start), steps).history, p.maxPerMinute + k - 1)
  {
    hide Run, Room, Books, Overlap;
    var b := Run(p, Fresh(start), steps);
    ReachableInv(p, start, steps, k);
    forall i, j | 0 <= i <= j < |b.history| && b.history[j].at - b.history[i].at <= MINUTE
      ensures j - i + 1 <= p.maxPerMinute + k - 1
    {
      forall x | i <= x <= j
        ensures b.givers[x].seen <= x && b.givers[x].seen - i < p.maxPerMinute
      {
        SeenInWindow(p, b, i, x, j);
      }
      GiverFacts(p, b, i);
      SpanBound(b, i, j, p.maxPerMinute, k);
    }
  }

  lemma GiverFacts(p: Policy, b: Bot, x: nat)
    requires Books(b) && Checked(p, b) && x < |b.history|
    ensures |b.givers| == |b.history| && b.givers[x].seen <= x && b.givers[x].evaluatedAt <= b.history[x].at
    ensures var h := b.givers[x];
            && h.since <= h.evaluatedAt
            && (p.maxPerMinute <= MAX_EVENTS ==> CountSince(b.history[..h.seen], h.evaluatedAt - MINUTE) < p.maxPerMinute)
            && (p.maxPerStream <= MAX_EVENTS ==> CountSince(b.history[..h.seen], h.since) < p.maxPerStream)
            && p.maxPerMinute > 0 && p.maxPerStream > 0
  {
    assert Room(p, b, b.givers[x]);
  }

  lemma InOrder(b: Bot, i: nat, j: nat)
    requires Books(b) && i <= j < |b.history|
    ensures b.history[i].at <= b.history[j].at
  {
  }

  /** Of the grants a handler saw, those from grant i on count towards a time no later than grant i. */
  lemma SeenSince(b: Bot, i: nat, seen: nat, since: int, cap: nat)
    requires Books(b) && i < |b.history| && since <= b.history[i].at && seen <= |b.history|
    requires CountSince(b.history[..seen], since) < cap
    ensures seen - i < cap
  {
    if i < seen {
      CountSorted(b.history[..seen], since, i);
    }
  }

  lemma SeenInWindow(p: Policy, b: Bot, i: nat, x: nat, j: nat)
    requires Books(b) && Checked(p, b) && |b.givers| == |b.history| && p.maxPerMinute <= MAX_EVENTS
    requires i <= x <= j < |b.history| && b.history[j].at - b.history[i].at <= MINUTE
    ensures b.givers[x].seen <= x && b.givers[x].seen - i < p.maxPerMinute
  {
    hide CountSince, Books, Checked;
    GiverFacts(p, b, x);
    InOrder(b, x, j);
    SeenSince(b, i, b.givers[x].seen, b.givers[x].evaluatedAt - MINUTE, p.maxPerMinute);
  }

  /** With at most k handlers under way no stream session holds more than maxPerStream + k - 1 grants, even if it
      starts while handlers are at work. */
  lemma StreamBound(p: Policy, start: int, steps: seq<Step>, k: nat)
    requires p.Complete() && p.maxPerStream <= 500 && k > 0 && InFlight(p, Fresh(start), steps, k)
    ensures var b := Run(p, Fresh(start), steps); |b.history| - b.session <= p.maxPerStream + k - 1
  {
    hide Run, CountSince;
    var b := Run(p, Fresh(start), steps);
    ReachableInv(p, start, steps, k);
    if b.session < |b.history| {
      forall x | b.session <= x <= |b.history| - 1
        ensures b.givers[x].seen <= x && b.givers[x].seen - b.session < p.maxPerStream
      {
        var h := b.givers[x];
        assert Room(p, b, h);
        if h.seen > b.session {
          SeenSince(b, b.session, h.seen, h.since, p.maxPerStream);
        }
      }
      assert Room(p, b, b.givers[b.session]);
      SpanBound(b, b.session, |b.history| - 1, p.maxPerStream, k);
    }
  }

  /** No single millisecond holds more than that either, since a session cannot start after it has passed. */
  lemma InstantBound(p: Policy, b: Bot, i: nat, j: nat, k: nat)
    requires Inv(p, b, k) && p.maxPerStream <= MAX_EVENTS
    requires i <= j < |b.history| && b.history[i].at == b.history[j].at
    ensures j - i + 1 <= p.maxPerStream + k - 1
  {
    hide Room, Books, Overlap;
    forall x | i <= x <= j
      ensures b.givers[x].seen <= x && b.givers[x].seen - i < p.maxPerStream
    {
      SeenInInstant(p, b, i, x, j);
    }
    GiverFacts(p, b, i);
    SpanBound(b, i, j, p.maxPerStream, k);
  }

  lemma SeenInInstant(p: Policy, b: Bot, i: nat, x: nat, j: nat)
    requires Books(b) && Checked(p, b) && |b.givers| == |b.history| && p.maxPerStream <= MAX_EVENTS
    requires i <= x <= j < |b.history| && b.history[i].at == b.history[j].at
    ensures b.givers[x].seen <= x && b.givers[x].seen - i < p.maxPerStream
  {
    hide CountSince, Books, Checked;
    GiverFacts(p, b, x);
    InOrder(b, x, j);
    InOrder(b, i, x);
    SeenSince(b, i, b.givers[x].seen, b.givers[x].since, p.maxPerStream);
  }

  /** The first of grants i to j that came at or after a time. */
  lemma {:induction false} FirstAt(history: seq<Event>, i: nat, j: nat, at: int) returns (x: nat)
    requires Sorted(history) && i <= j < |history| && history[i].at <= at
    ensures i <= x <= j + 1 && (forall y :: i <= y < x ==> history[y].at < at) && (forall y :: x <= y <= j ==> history[y].at >= at)
    decreases j
  {
    if history[j].at < at {
      x := j + 1;
    } else if i == j {
      x := j;
    } else {
      x := FirstAt(history, i, j - 1, at);
    }
  }

  ghost function Times(n: nat, m: nat): nat { if n == 0 then 0 else Times(n - 1, m) + m }

  lemma {:induction false} TimesIsProduct(n: nat, m: nat)
    ensures Times(n, m) == n * m
  {
    if n > 0 {
      TimesIsProduct(n - 1, m);
      assert n * m == (n - 1) * m + m;
    }
  }

  /** So with at most k handlers under way a span of d milliseconds holds at most d + 1 times as many. */
  lemma {:induction false} SpanOfInstants(p: Policy, b: Bot, i: nat, j: nat, d: nat, k: nat)
    requires Inv(p, b, k) && k > 0 && p.maxPerStream <= MAX_EVENTS
    requires i <= j < |b.history| && b.history[j].at - b.history[i].at <= d
    ensures j - i + 1 <= Times(d + 1, p.maxPerStream + k - 1)
    decreases d
  {
    hide Checked, Overlap;
    var last := b.history[i].at + d;
    var x := FirstAt(b.history, i, j, last);
    if x <= j {
      InstantBound(p, b, x, j, k);
    }
    if x > i && d > 0 {
      SpanOfInstants(p, b, i, x - 1, d - 1, k);
    }
  }

  /** A cap above 500 is no cap: the trimmed log never counts that far. */
  lemma LargeCapNeverDenies(p: Policy, history: seq<Event>, s: Store, req: Request, now: int)
    requires req.source in p.rules && s.events == Recent(history)
    ensures p.maxPerMinute > MAX_EVENTS ==> Evaluate(p, s, req, now) != RateLimited
    ensures p.maxPerStream > MAX_EVENTS ==> Evaluate(p, s, req, now) != StreamCapped
  {
  }

  // ---- Cooldowns -----------------------------------------------------------

  /** No two handlers under way serve one user. */
  ghost predicate OnePerUser(p: Policy, b: Bot, steps: seq<Step>)
    requires p.Complete()
    decreases |steps|
  {
    && (forall i, j :: 0 <= i < j < |b.pending| ==> b.pending[i].req.userId != b.pending[j].req.userId)
    && (steps != [] ==> OnePerUser(p, Next(p, b, steps[0]), steps[1..]))
  }

  /** Two grants to one user are at least the later one's cooldown apart. */
  ghost predicate Cooldowns(p: Policy, history: seq<Event>)
    requires p.Complete()
  {
    forall i, j :: 0 <= i < j < |history| && history[i].userId == history[j].userId ==>
      history[j].at - history[i].at >= CooldownOf(p, history[j].source)
  }

  ghost predicate Cooled(p: Policy, b: Bot)
    requires p.Complete()
  {
    && (forall i :: 0 <= i < |b.history| ==>
          b.history[i].userId in b.store.users && b.history[i].at <= b.store.users[b.history[i].userId])
    && (forall u :: u in b.store.users ==> b.store.users[u] <= b.now)
    && Cooldowns(p, b.history)
    && (forall i :: 0 <= i < |b.pending| ==> Rested(p, b, b.pending[i].req))
  }

  ghost predicate Rested(p: Policy, b: Bot, req: Request)
    requires p.Complete()
  {
    req.userId in b.store.users ==> b.now - b.store.users[req.userId] >= CooldownOf(p, req.source)
  }

  lemma RecordCooled(p: Policy, b: Bot, i: nat, code: string)
    requires p.Complete() && Cooled(p, b) && i < |b.pending|
    requires forall i, j :: 0 <= i < j < |b.pending| ==> b.pending[i].req.userId != b.pending[j].req.userId
    ensures Cooled(p, Next(p, b, Finish(i, true, code)))
  {
    hide Recent;
    var h, c := b.pending[i], Next(p, b, Finish(i, true, code));
    assert Rested(p, b, h.req);
    forall x, y | 0 <= x < y < |c.history| && c.history[x].userId == c.history[y].userId
      ensures c.history[y].at - c.history[x].at >= CooldownOf(p, c.history[y].source)
    {
      assert c.history[x] == b.history[x];
    }
  }

  lemma NextCooled(p: Policy, b: Bot, step: Step)
    requires p.Complete() && Cooled(p, b)
    requires forall i, j :: 0 <= i < j < |b.pending| ==> b.pending[i].req.userId != b.pending[j].req.userId
    ensures Cooled(p, Next(p, b, step))
  {
    if step.Finish? && step.delivered && step.i < |b.pending| {
      RecordCooled(p, b, step.i, step.code);
    }
  }

  lemma {:induction false} RunCooled(p: Policy, b: Bot, steps: seq<Step>)
    requires p.Complete() && Cooled(p, b) && OnePerUser(p, b, steps)
    ensures Cooled(p, Run(p, b, steps))
    decreases |steps|
  {
    if steps != [] {
      NextCooled(p, b, steps[0]);
      RunCooled(p, Next(p, b, steps[0]), steps[1..]);
    }
  }

  /** However many handlers overlap, if no two of them serve one user every user's grants keep the cooldown of the
      later grant's source. */
  lemma CooldownHolds(p: Policy, start: int, steps: seq<Step>)
    requires p.Complete() && OnePerUser(p, Fresh(start), steps)
    ensures Cooldowns(p, Run(p, Fresh(start), steps).history)
  {
    RunCooled(p, Fresh(start), steps);
  }
}
