/** Exactly when the policy allows a grant, told from the request, the clock and the true history of grants. */
module GrantPolicy {
  import opened Common
  import opened GrantLimits

  // ---- Who is eligible -----------------------------------------------------

  /** The highest role of a viewer, and the lowest role a rule asks for. */
  function Rank(b: Badges): nat { if b.mod || b.broadcaster then 3 else if b.vip then 2 else if b.sub then 1 else 0 }

  function Threshold(e: Eligibility): nat {
    match e
    case Everyone => 0
    case Subscribers => 1
    case Vips => 2
    case Mods => 3
  }

  /** Roles are ordered: whoever ranks at least as high as asked is eligible. Cheers and raids need their minimum, a
      configured reward must be the one redeemed. */
  predicate Qualifies(rule: Rule, req: Request) {
    match req.source
    case Cheer => req.bits >= rule.minimum
    case Raid => req.raidViewers >= rule.minimum
    case ChannelPoints => Rank(req.badges) >= Threshold(rule.eligibility)
                          && (rule.rewardId == "" || req.rewardId == Some(rule.rewardId))
    case _ => Rank(req.badges) >= Threshold(rule.eligibility)
  }

  lemma EligibleExactly(rule: Rule, req: Request)
    ensures Eligible(rule, req) <==> Qualifies(rule, req)
  {
  }

  // ---- The verdict ---------------------------------------------------------

  /** Seconds a user has to wait between grants: the source's own, else the global ones. */
  function WaitFor(p: Policy, source: Source): nat
    requires source in p.rules
  {
    match p.rules[source].cooldown
    case Some(seconds) => seconds
    case None => p.cooldown
  }

  /** The user's last grant, if any, is long enough ago. */
  predicate Rested(p: Policy, last: Option<int>, req: Request, now: int)
    requires req.source in p.rules
  {
    last.None? || now - last.value >= 1000 * WaitFor(p, req.source) || WaitFor(p, req.source) == 0
  }

  function LastOf(s: Store, user: string): Option<int> { if user in s.users then Some(s.users[user]) else None }

  /** Which verdict is given: the checks in order, each against the store. */
  lemma VerdictExact(p: Policy, s: Store, req: Request, now: int)
    requires req.source in p.rules
    ensures var v := Evaluate(p, s, req, now);
            var eligible, rested := Qualifies(p.rules[req.source], req), Rested(p, LastOf(s, req.userId), req, now);
            var minute, stream := CountSince(s.events, now - 60_000), CountSince(s.events, s.streamStartedAt);
            && (v == NotEligible <==> !eligible)
            && (v == CoolingDown <==> eligible && !rested)
            && (v == RateLimited <==> eligible && rested && minute >= p.maxPerMinute)
            && (v == StreamCapped <==> eligible && rested && minute < p.maxPerMinute && stream >= p.maxPerStream)
            && (v == Allowed <==> eligible && rested && minute < p.maxPerMinute && stream < p.maxPerStream)
  {
    EligibleExactly(p.rules[req.source], req);
  }

  // ---- The same from the true history --------------------------------------

  /** When the user was last granted a code. */
  ghost function LastGrant(history: seq<Event>, user: string): Option<int> {
    if history == [] then None
    else if history[|history| - 1].userId == user then Some(history[|history| - 1].at)
    else LastGrant(history[..|history| - 1], user)
  }

  ghost predicate Remembers(b: Bot) { forall u :: LastOf(b.store, u) == LastGrant(b.history, u) }

  lemma NextRemembers(p: Policy, b: Bot, step: Step)
    requires p.Complete() && Remembers(b)
    ensures Remembers(Next(p, b, step))
  {
    if step.Finish? && step.delivered && step.i < |b.pending| {
      var h, c := b.pending[step.i], Next(p, b, step);
      assert c.history[..|b.history|] == b.history;
      forall u
        ensures LastOf(c.store, u) == LastGrant(c.history, u)
      {
        assert LastOf(b.store, u) == LastGrant(b.history, u);
      }
    } else {
      assert Next(p, b, step).history == b.history && Next(p, b, step).store.users == b.store.users;
    }
  }

  lemma {:induction false} RunRemembers(p: Policy, b: Bot, steps: seq<Step>)
    requires p.Complete() && Remembers(b) && Books(b)
    ensures Remembers(Run(p, b, steps)) && Books(Run(p, b, steps))
    decreases |steps|
  {
    if steps != [] {
      NextRemembers(p, b, steps[0]);
      NextBooks(p, b, steps[0]);
      RunRemembers(p, Next(p, b, steps[0]), steps[1..]);
    }
  }

  /** A count as far as the log of 500 goes. */
  function AtMost500(n: nat): nat { if n < 500 then n else 500 }

  /** In every run, however handlers overlap: a request is allowed iff it is eligible, its user's last grant is a cooldown
      ago, and the true counts of the last minute and of the session, as far as 500, are below their caps. */
  lemma AllowedExactly(p: Policy, start: int, steps: seq<Step>, req: Request)
    requires p.Complete()
    ensures var b := Run(p, Fresh(start), steps);
            Evaluate(p, b.store, req, b.now) == Allowed <==>
            && Qualifies(p.rules[req.source], req)
            && Rested(p, LastGrant(b.history, req.userId), req, b.now)
            && AtMost500(CountSince(b.history, b.now - 60_000)) < p.maxPerMinute
            && AtMost500(CountSince(b.history, b.store.streamStartedAt)) < p.maxPerStream
  {
    hide Run;
    var b := Run(p, Fresh(start), steps);
    RunRemembers(p, Fresh(start), steps);
    VerdictExact(p, b.store, req, b.now);
    assert LastOf(b.store, req.userId) == LastGrant(b.history, req.userId);
    TrimmedCount(b.history, b.now - 60_000);
    TrimmedCount(b.history, b.store.streamStartedAt);
  }

  /** What a finished handler leaves behind: a delivered grant is the newest event, carries its request and code, and is
      the user's last; an undelivered one leaves nothing. */
  lemma FinishExact(p: Policy, b: Bot, i: nat, code: string)
    requires p.Complete() && i < |b.pending|
    ensures var h, t := b.pending[i], Next(p, b, Finish(i, true, code));
            && t.history == b.history + [Event(h.req.userId, h.req.source, code, b.now)]
            && t.pending == b.pending[..i] + b.pending[i + 1..]
            && LastOf(t.store, h.req.userId) == Some(b.now)
            && (forall u :: u != h.req.userId ==> LastOf(t.store, u) == LastOf(b.store, u))
    ensures var t := Next(p, b, Finish(i, false, code));
            t == b.(pending := b.pending[..i] + b.pending[i + 1..])
  {
  }
}
