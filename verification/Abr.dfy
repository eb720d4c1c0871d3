/** The adaptive bitrate controller. Rates are integers, fractions exact reals, times integers on a clock
    that does not run backwards. */
module Abr {
  import opened Common

  datatype Config = Config(
    min: int, max: int, start: int, lossThreshold: real, decreaseFactor: real, increaseStep: int,
    cooldown: int, cleanWindow: int, minChange: real)

  const SECOND := 1_000_000_000

  const DEFAULT := Config(1_000_000, 8_000_000, 4_000_000, 0.05, 0.8, 500_000, 10 * SECOND, 5 * SECOND, 0.1)

  function Clamp(v: int, lo: int, hi: int): int { if v < lo then lo else if v > hi then hi else v }

  function Positive(v: int, default: int): (r: int)
    requires default > 0
    ensures r > 0
  {
    if v <= 0 then default else v
  }

  /** A usable configuration. */
  predicate Normal(c: Config) {
    && 0 < c.min <= c.start <= c.max && 0.0 < c.lossThreshold && 0.0 < c.decreaseFactor < 1.0
    && 0 < c.increaseStep && 0 < c.cooldown && 0 < c.cleanWindow && 0.0 <= c.minChange
  }

  /** Replaces what is missing or senseless by defaults. */
  function Normalise(c: Config): (r: Config)
    ensures Normal(r)
  {
    var min := Positive(c.min, DEFAULT.min);
    var max0 := Positive(c.max, DEFAULT.max);
    var max := if max0 < min then min else max0;
    Config(min, max, Clamp(Positive(c.start, DEFAULT.start), min, max),
           if c.lossThreshold <= 0.0 then DEFAULT.lossThreshold else c.lossThreshold,
           if c.decreaseFactor <= 0.0 || c.decreaseFactor >= 1.0 then DEFAULT.decreaseFactor else c.decreaseFactor,
           Positive(c.increaseStep, DEFAULT.increaseStep),
           Positive(c.cooldown, DEFAULT.cooldown),
           Positive(c.cleanWindow, DEFAULT.cleanWindow),
           if c.minChange < 0.0 then DEFAULT.minChange else c.minChange)
  }

  /** A usable configuration is kept as it is, and normalising once is enough. */
  lemma NormaliseKeeps(c: Config)
    ensures Normal(c) ==> Normalise(c) == c
    ensures Normalise(Normalise(c)) == Normalise(c)
  {
  }

  /** What an empty configuration becomes; a zero MinChangeFraction is a choice and stays. */
  lemma NormaliseEmpty()
    ensures Normalise(Config(0, 0, 0, 0.0, 0.0, 0, 0, 0, 0.0)) ==
            Config(1_000_000, 8_000_000, 4_000_000, 0.05, 0.8, 500_000, 10_000_000_000, 5_000_000_000, 0.0)
    ensures Normalise(Config(0, 0, 0, 0.0, 0.0, 0, 0, 0, -1.0)).minChange == 0.1
  {
  }

  /** Each field is kept where it makes sense by itself; a start outside the bounds moves to the nearer one. */
  lemma NormaliseFields(c: Config)
    ensures var r := Normalise(c);
            && (c.min > 0 ==> r.min == c.min)
            && (c.max >= r.min ==> r.max == c.max) && (0 < c.max < r.min ==> r.max == r.min)
            && (r.min <= c.start <= r.max ==> r.start == c.start)
            && (c.start > r.max ==> r.start == r.max) && (0 < c.start < r.min ==> r.start == r.min)
            && (c.lossThreshold > 0.0 ==> r.lossThreshold == c.lossThreshold)
            && (0.0 < c.decreaseFactor < 1.0 ==> r.decreaseFactor == c.decreaseFactor)
            && (c.increaseStep > 0 ==> r.increaseStep == c.increaseStep)
            && (c.cooldown > 0 ==> r.cooldown == c.cooldown) && (c.cleanWindow > 0 ==> r.cleanWindow == c.cleanWindow)
            && (c.minChange >= 0.0 ==> r.minChange == c.minChange)
  {
  }

  datatype Reason = NoChange | Decrease | Increase

  datatype State = State(target: int, lastChange: int, cleanSince: int, haveClean: bool)

  function New(cfg: Config, now: int): State
    requires Normal(cfg)
  {
    State(cfg.start, now, 0, false)
  }

  /** The clean-window timer, kept whether or not a change is committed. */
  function Timer(cfg: Config, s: State, loss: real, now: int): State {
    if loss > cfg.lossThreshold then s.(haveClean := false)
    else if !s.haveClean then s.(cleanSince := now, haveClean := true)
    else s
  }

  /** target * factor, cut to an integer; both are positive. */
  function Scaled(target: int, factor: real): int { (target as real * factor).Floor }

  /** The rate the sample argues for, and why. */
  function Proposal(cfg: Config, s: State, loss: real, now: int): (int, Reason) {
    if loss > cfg.lossThreshold then
      (Clamp(Scaled(s.target, cfg.decreaseFactor), cfg.min, cfg.max), Decrease)
    else if s.haveClean && now - s.cleanSince >= cfg.cleanWindow then
      (Clamp(s.target + cfg.increaseStep, cfg.min, cfg.max), Increase)
    else (s.target, NoChange)
  }

  /** Too small a change to restart the encoder for. */
  predicate Negligible(cfg: Config, target: int, candidate: int) {
    var delta := if candidate < target then target - candidate else candidate - target;
    candidate == target || delta as real < cfg.minChange * target as real
  }

  /** The committed change, or NoChange. */
  function Verdict(cfg: Config, s: State, loss: real, now: int): Reason {
    var timed := Timer(cfg, s, loss, now);
    var (candidate, reason) := Proposal(cfg, timed, loss, now);
    if now - s.lastChange < cfg.cooldown || Negligible(cfg, s.target, candidate) then NoChange else reason
  }

  function Observe(cfg: Config, s: State, loss: real, now: int): State {
    var timed := Timer(cfg, s, loss, now);
    var (candidate, reason) := Proposal(cfg, timed, loss, now);
    if Verdict(cfg, s, loss, now) == NoChange then timed
    else State(candidate, now, if reason == Increase then now else timed.cleanSince, timed.haveClean)
  }

  /** The controller object. */
  class Controller {
    const cfg: Config
    var target: int
    var lastChange: int
    var cleanSince: int
    var haveCleanTS: bool

    ghost function View(): State
      reads this
    {
      State(target, lastChange, cleanSince, haveCleanTS)
    }

    constructor (c: Config, now: int)
      ensures cfg == Normalise(c) && View() == New(cfg, now)
    {
      cfg := Normalise(c);
      target := Normalise(c).start;
      lastChange, cleanSince, haveCleanTS := now, 0, false;
    }

    method TrackCleanWindow(loss: real, now: int)
      modifies this`cleanSince, this`haveCleanTS
      ensures View() == Timer(cfg, old(View()), loss, now)
    {
      if loss > cfg.lossThreshold {
        haveCleanTS := false;
      } else if !haveCleanTS {
        cleanSince := now;
        haveCleanTS := true;
      }
    }

    method Propose(loss: real, now: int) returns (candidate: int, reason: Reason)
      ensures (candidate, reason) == Proposal(cfg, View(), loss, now)
    {
      if loss > cfg.lossThreshold {
        candidate := Scaled(target, cfg.decreaseFactor);
        reason := Decrease;
      } else if haveCleanTS && now - cleanSince >= cfg.cleanWindow {
        candidate := target + cfg.increaseStep;
        reason := Increase;
      } else {
        return target, NoChange;
      }
      candidate := Clamp(candidate, cfg.min, cfg.max);
    }

    method ObserveSample(loss: real, now: int) returns (rate: int, changed: bool, reason: Reason)
      modifies this
      ensures View() == Observe(cfg, old(View()), loss, now)
      ensures reason == Verdict(cfg, old(View()), loss, now) && rate == target && (changed <==> reason != NoChange)
    {
      TrackCleanWindow(loss, now);
      if now - lastChange < cfg.cooldown {
        return target, false, NoChange;
      }
      var candidate;
      candidate, reason := Propose(loss, now);
      if reason == NoChange || Negligible(cfg, target, candidate) {
        return target, false, NoChange;
      }
      target := candidate;
      lastChange := now;
      if reason == Increase {
        cleanSince := now;
      }
      return candidate, true, reason;
    }
  }

  // ---- Traces --------------------------------------------------------------

  datatype Sample = Sample(loss: real, at: int)

  /** A sample together with what the controller did about it. */
  datatype Record = Record(loss: real, at: int, verdict: Reason)

  datatype Trace = Trace(state: State, records: seq<Record>)

  ghost predicate InTime(samples: seq<Sample>, start: int) {
    && (forall i :: 0 <= i < |samples| ==> start <= samples[i].at)
    && (forall i, j :: 0 <= i < j < |samples| ==> samples[i].at <= samples[j].at)
  }

  ghost function Feed(cfg: Config, start: int, samples: seq<Sample>): Trace
    requires Normal(cfg)
    decreases |samples|
  {
    if samples == [] then Trace(New(cfg, start), []) else
    var t, x := Feed(cfg, start, samples[..|samples| - 1]), samples[|samples| - 1];
    Trace(Observe(cfg, t.state, x.loss, x.at), t.records + [Record(x.loss, x.at, Verdict(cfg, t.state, x.loss, x.at))])
  }

  /** Records f onwards are clean, and none after f is an increase. */
  ghost predicate Stretch(cfg: Config, rs: seq<Record>, f: nat) {
    && f < |rs|
    && (forall m :: f <= m < |rs| ==> rs[m].loss <= cfg.lossThreshold)
    && (forall m :: f < m < |rs| ==> rs[m].verdict != Increase)
  }

  /** Record j is an increase after a clean stretch of at least CleanWindow without another increase. */
  ghost predicate Earned(cfg: Config, rs: seq<Record>, j: nat) {
    j < |rs| && exists f: nat :: f < j && Stretch(cfg, rs[..j], f) && rs[j].at - rs[f].at >= cfg.cleanWindow
                            && rs[j].loss <= cfg.lossThreshold
  }

  ghost predicate Spaced(cfg: Config, rs: seq<Record>, start: int) {
    && (forall j :: 0 <= j < |rs| && rs[j].verdict != NoChange ==> rs[j].at - start >= cfg.cooldown)
    && (forall i, j :: 0 <= i < j < |rs| && rs[i].verdict != NoChange && rs[j].verdict != NoChange ==>
          rs[j].at - rs[i].at >= cfg.cooldown)
  }

  ghost predicate TraceOk(cfg: Config, start: int, t: Trace, now: int) {
    var s, rs := t.state, t.records;
    && cfg.min <= s.target <= cfg.max
    && start <= s.lastChange <= now
    && (forall i :: 0 <= i < |rs| ==> rs[i].at <= now)
    && (forall i :: 0 <= i < |rs| && rs[i].verdict != NoChange ==> rs[i].at <= s.lastChange)
    && Spaced(cfg, rs, start)
    && (s.haveClean ==> exists f: nat :: Stretch(cfg, rs, f) && rs[f].at == s.cleanSince)
    && (forall j :: 0 <= j < |rs| && rs[j].verdict == Increase ==> Earned(cfg, rs, j))
  }

  lemma ObserveFacts(cfg: Config, s: State, x: Sample)
    requires Normal(cfg) && cfg.min <= s.target <= cfg.max
    ensures var s', v := Observe(cfg, s, x.loss, x.at), Verdict(cfg, s, x.loss, x.at);
            && cfg.min <= s'.target <= cfg.max
            && (v == NoChange ==> s'.lastChange == s.lastChange && s'.target == s.target)
            && (v != NoChange ==> s'.lastChange == x.at && x.at - s.lastChange >= cfg.cooldown)
            && (v == Increase ==> s.haveClean && x.at - s.cleanSince >= cfg.cleanWindow && s'.cleanSince == x.at)
            && (v == Decrease ==> x.loss > cfg.lossThreshold)
            && (s'.haveClean <==> x.loss <= cfg.lossThreshold)
            && (s'.haveClean && v != Increase ==> s'.cleanSince == if s.haveClean then s.cleanSince else x.at)
            && (v == Increase ==> s'.haveClean)
  {
  }

  lemma SpacedSnoc(cfg: Config, rs: seq<Record>, start: int, r: Record, last: int)
    requires Spaced(cfg, rs, start) && start <= last
    requires forall i :: 0 <= i < |rs| && rs[i].verdict != NoChange ==> rs[i].at <= last
    requires r.verdict != NoChange ==> r.at - last >= cfg.cooldown
    ensures Spaced(cfg, rs + [r], start)
  {
  }

  lemma StretchSnoc(cfg: Config, rs: seq<Record>, r: Record, f: nat)
    requires Stretch(cfg, rs, f) && r.loss <= cfg.lossThreshold && r.verdict != Increase
    ensures Stretch(cfg, rs + [r], f) && (rs + [r])[f] == rs[f]
  {
  }

  lemma EarnedSnoc(cfg: Config, rs: seq<Record>, r: Record, j: nat)
    requires Earned(cfg, rs, j)
    ensures Earned(cfg, rs + [r], j)
  {
    var f: nat :| f < j && Stretch(cfg, rs[..j], f) && rs[j].at - rs[f].at >= cfg.cleanWindow;
    assert (rs + [r])[..j] == rs[..j];
  }

  lemma StepStretch(cfg: Config, start: int, t: Trace, now: int, x: Sample)
    requires Normal(cfg) && TraceOk(cfg, start, t, now) && now <= x.at
    ensures var s', r := Observe(cfg, t.state, x.loss, x.at), Record(x.loss, x.at, Verdict(cfg, t.state, x.loss, x.at));
            var rs' := t.records + [r];
            && (s'.haveClean ==> exists f: nat :: Stretch(cfg, rs', f) && rs'[f].at == s'.cleanSince)
            && (r.verdict == Increase ==> Earned(cfg, rs', |t.records|))
  {
    var s, rs := t.state, t.records;
    ObserveFacts(cfg, s, x);
    var s', r := Observe(cfg, s, x.loss, x.at), Record(x.loss, x.at, Verdict(cfg, s, x.loss, x.at));
    var rs' := rs + [r];
    if s'.haveClean {
      if s.haveClean {
        var f: nat :| Stretch(cfg, rs, f) && rs[f].at == s.cleanSince;
        if r.verdict == Increase {
          assert rs'[..|rs|] == rs;
          assert Stretch(cfg, rs', |rs|);
        } else {
          StretchSnoc(cfg, rs, r, f);
        }
      } else {
        assert Stretch(cfg, rs', |rs|);
      }
    }
  }

  lemma StepOk(cfg: Config, start: int, t: Trace, now: int, x: Sample)
    requires Normal(cfg) && TraceOk(cfg, start, t, now) && now <= x.at
    ensures TraceOk(cfg, start,
              Trace(Observe(cfg, t.state, x.loss, x.at),
                    t.records + [Record(x.loss, x.at, Verdict(cfg, t.state, x.loss, x.at))]), x.at)
  {
    var s, rs := t.state, t.records;
    var r := Record(x.loss, x.at, Verdict(cfg, s, x.loss, x.at));
    ObserveFacts(cfg, s, x);
    SpacedSnoc(cfg, rs, start, r, s.lastChange);
    StepStretch(cfg, start, t, now, x);
    forall j | 0 <= j < |rs + [r]| && (rs + [r])[j].verdict == Increase
      ensures Earned(cfg, rs + [r], j)
    {
      if j < |rs| {
        EarnedSnoc(cfg, rs, r, j);
      }
    }
  }

  ghost function LastTime(samples: seq<Sample>, start: int): int {
    if samples == [] then start else samples[|samples| - 1].at
  }

  lemma {:induction false} FeedOk(cfg: Config, start: int, samples: seq<Sample>)
    requires Normal(cfg) && InTime(samples, start)
    ensures TraceOk(cfg, start, Feed(cfg, start, samples), LastTime(samples, start))
    decreases |samples|
  {
    if samples != [] {
      var before := samples[..|samples| - 1];
      FeedOk(cfg, start, before);
      StepOk(cfg, start, Feed(cfg, start, before), LastTime(before, start), samples[|samples| - 1]);
    }
  }

  /** Over every sample trace: the rate stays within its bounds, changes are a cooldown apart, and each
      increase was earned by a clean stretch since the last loss or increase. */
  lemma HistoryPromises(c: Config, start: int, samples: seq<Sample>)
    requires InTime(samples, start)
    ensures var cfg := Normalise(c);
            var t := Feed(cfg, start, samples);
            && cfg.min <= t.state.target <= cfg.max
            && Spaced(cfg, t.records, start)
            && (forall j :: 0 <= j < |t.records| && t.records[j].verdict == Increase ==> Earned(cfg, t.records, j))
  {
    FeedOk(Normalise(c), start, samples);
  }

  // ---- What each sample does, told from the trace alone --------------------

  /** One step up, and one down. */
  ghost function StepUp(cfg: Config, target: int): int {
    if target + cfg.increaseStep < cfg.max then target + cfg.increaseStep else cfg.max
  }

  ghost function StepDown(cfg: Config, target: int): int {
    var low := (target as real * cfg.decreaseFactor).Floor;
    if low > cfg.min then low else cfg.min
  }

  /** Worth a restart of the encoder: not nothing, and no less than MinChangeFraction of the rate. */
  ghost predicate Worth(cfg: Config, target: int, step: int) {
    step > 0 && step as real >= cfg.minChange * target as real
  }

  /** When the trace last changed the rate, or began. */
  ghost function LastCommit(rs: seq<Record>, start: int): int {
    if rs == [] then start
    else if rs[|rs| - 1].verdict != NoChange then rs[|rs| - 1].at
    else LastCommit(rs[..|rs| - 1], start)
  }

  /** Since when the link has been clean without an increase; None right after a loss. */
  ghost function CleanSince(cfg: Config, rs: seq<Record>): Option<int> {
    if rs == [] || rs[|rs| - 1].loss > cfg.lossThreshold then None else
    var before, last := CleanSince(cfg, rs[..|rs| - 1]), rs[|rs| - 1];
    if last.verdict == Increase || before.None? then Some(last.at) else before
  }

  /** The controller's fields are what the trace says. */
  ghost predicate Reads(cfg: Config, start: int, t: Trace) {
    && cfg.min <= t.state.target <= cfg.max
    && t.state.lastChange == LastCommit(t.records, start)
    && CleanSince(cfg, t.records) == if t.state.haveClean then Some(t.state.cleanSince) else None
  }

  /** What one sample does to any state. */
  lemma ObserveExact(cfg: Config, s: State, loss: real, now: int)
    requires Normal(cfg) && cfg.min <= s.target <= cfg.max
    ensures var lossy, cooled := loss > cfg.lossThreshold, now - s.lastChange >= cfg.cooldown;
            var v, t := Verdict(cfg, s, loss, now), Observe(cfg, s, loss, now);
            && (v == Decrease <==> lossy && cooled && Worth(cfg, s.target, s.target - StepDown(cfg, s.target)))
            && (v == Increase <==> !lossy && cooled && s.haveClean && now - s.cleanSince >= cfg.cleanWindow
                                   && Worth(cfg, s.target, StepUp(cfg, s.target) - s.target))
            && t.target == (match v case Decrease => StepDown(cfg, s.target)
                                    case Increase => StepUp(cfg, s.target)
                                    case NoChange => s.target)
            && (v == Decrease ==> t.target < s.target) && (v == Increase ==> t.target > s.target)
  {
    Shrinks(s.target, cfg.decreaseFactor);
    hide Scaled;
    ScaledDown(cfg, s.target);
  }

  lemma ScaledDown(cfg: Config, target: int)
    requires Normal(cfg) && cfg.min <= target <= cfg.max
    ensures StepDown(cfg, target) == Clamp(Scaled(target, cfg.decreaseFactor), cfg.min, cfg.max) <= target
    ensures StepUp(cfg, target) == Clamp(target + cfg.increaseStep, cfg.min, cfg.max) >= target
  {
    Shrinks(target, cfg.decreaseFactor);
  }

  lemma {:induction false} FeedReads(cfg: Config, start: int, samples: seq<Sample>)
    requires Normal(cfg)
    ensures Reads(cfg, start, Feed(cfg, start, samples))
    decreases |samples|
  {
    if samples != [] {
      var before, x := Feed(cfg, start, samples[..|samples| - 1]), samples[|samples| - 1];
      FeedReads(cfg, start, samples[..|samples| - 1]);
      StepReads(cfg, start, before, x);
    }
  }

  lemma StepReads(cfg: Config, start: int, t: Trace, x: Sample)
    requires Normal(cfg) && Reads(cfg, start, t)
    ensures Reads(cfg, start, Trace(Observe(cfg, t.state, x.loss, x.at),
                                    t.records + [Record(x.loss, x.at, Verdict(cfg, t.state, x.loss, x.at))]))
  {
    ObserveFacts(cfg, t.state, x);
    var r := Record(x.loss, x.at, Verdict(cfg, t.state, x.loss, x.at));
    assert (t.records + [r])[..|t.records|] == t.records;
  }

  /** A trace starts at the start rate, with the cooldown running from the start and no clean stretch. */
  lemma TraceStarts(c: Config, start: int)
    ensures var cfg := Normalise(c);
            var t := Feed(cfg, start, []);
            t.state.target == cfg.start && LastCommit(t.records, start) == start == t.state.lastChange && !t.state.haveClean
  {
  }

  /** Over every trace, exactly when the next sample lowers or raises the rate, and to what: down when it is lossy, up when
      the link has been clean for CleanWindow since the last loss or increase, each a Cooldown after the last change and
      worth it. */
  lemma TraceExact(c: Config, start: int, samples: seq<Sample>, x: Sample)
    ensures var cfg := Normalise(c);
            var t, u := Feed(cfg, start, samples), Feed(cfg, start, samples + [x]);
            var rate, clean := t.state.target, CleanSince(cfg, t.records);
            var lossy, cooled := x.loss > cfg.lossThreshold, x.at - LastCommit(t.records, start) >= cfg.cooldown;
            u.state.target ==
              if lossy && cooled && Worth(cfg, rate, rate - StepDown(cfg, rate)) then StepDown(cfg, rate)
              else if !lossy && cooled && clean.Some? && x.at - clean.value >= cfg.cleanWindow
                      && Worth(cfg, rate, StepUp(cfg, rate) - rate) then StepUp(cfg, rate)
              else rate
  {
    var cfg := Normalise(c);
    FeedReads(cfg, start, samples);
    assert (samples + [x])[..|samples|] == samples;
    ObserveExact(cfg, Feed(cfg, start, samples).state, x.loss, x.at);
  }

  // ---- An unending clean link ----------------------------------------------

  ghost predicate AllClean(cfg: Config, samples: seq<Sample>) {
    forall i :: 0 <= i < |samples| ==> samples[i].loss <= cfg.lossThreshold
  }

  /** No clean sample raises the rate any more: it is at its maximum, or the clamped step up is not worth it. */
  ghost predicate AtTop(cfg: Config, target: int) { !Worth(cfg, target, StepUp(cfg, target) - target) }

  /** Samples counted greedily, each a Cooldown and a CleanWindow after the one before. */
  ghost function Climbs(cfg: Config, samples: seq<Sample>, change: int, clean: int): nat
    decreases |samples|
  {
    if samples == [] then 0
    else if samples[0].at - change >= cfg.cooldown && samples[0].at - clean >= cfg.cleanWindow
    then 1 + Climbs(cfg, samples[1..], samples[0].at, samples[0].at)
    else Climbs(cfg, samples[1..], change, clean)
  }

  lemma CleanStep(cfg: Config, s: State, x: Sample)
    requires Normal(cfg) && cfg.min <= s.target <= cfg.max && s.haveClean && x.loss <= cfg.lossThreshold
    ensures var t := Observe(cfg, s, x.loss, x.at);
            && cfg.min <= t.target <= cfg.max && t.haveClean
            && if AtTop(cfg, s.target) || x.at - s.lastChange < cfg.cooldown || x.at - s.cleanSince < cfg.cleanWindow
               then t == s
               else t.target == StepUp(cfg, s.target) > s.target && t.lastChange == t.cleanSince == x.at
  {
    ObserveExact(cfg, s, x.loss, x.at);
    ObserveFacts(cfg, s, x);
  }

  lemma {:induction false} StaysAtTop(cfg: Config, s: State, samples: seq<Sample>)
    requires Normal(cfg) && cfg.min <= s.target <= cfg.max && s.haveClean && AllClean(cfg, samples) && AtTop(cfg, s.target)
    ensures Observed(cfg, s, samples) == s
    decreases |samples|
  {
    hide Observe, AtTop;
    if samples != [] {
      CleanStep(cfg, s, samples[0]);
      StaysAtTop(cfg, s, samples[1..]);
    }
  }

  /** The rate after n steps up. */
  ghost function Climbed(cfg: Config, target: int, n: nat): int
    decreases n
  {
    if n == 0 then target else Climbed(cfg, StepUp(cfg, target), n - 1)
  }

  /** Over clean samples the rate is at the top, or has taken one step up at every climb. */
  lemma {:induction false} CleanClimbs(cfg: Config, s: State, samples: seq<Sample>)
    requires Normal(cfg) && cfg.min <= s.target <= cfg.max && s.haveClean && AllClean(cfg, samples)
    ensures var t, n := Observed(cfg, s, samples).target, Climbs(cfg, samples, s.lastChange, s.cleanSince);
            && s.target <= t <= cfg.max
            && (AtTop(cfg, t) || t == Climbed(cfg, s.target, n))
    decreases |samples|
  {
    hide Observe, AtTop;
    if AtTop(cfg, s.target) {
      StaysAtTop(cfg, s, samples);
    } else if samples != [] {
      CleanStep(cfg, s, samples[0]);
      CleanClimbs(cfg, Observe(cfg, s, samples[0].loss, samples[0].at), samples[1..]);
    }
  }

  lemma {:induction false} ClimbedIs(cfg: Config, target: int, n: nat)
    requires cfg.increaseStep > 0 && target <= cfg.max
    ensures Climbed(cfg, target, n) == if target + n * cfg.increaseStep < cfg.max then target + n * cfg.increaseStep
                                       else if n == 0 then target else cfg.max
    decreases n
  {
    if n > 0 {
      var up := StepUp(cfg, target);
      ClimbedIs(cfg, up, n - 1);
      assert n * cfg.increaseStep == (n - 1) * cfg.increaseStep + cfg.increaseStep;
      ProductPositive(n - 1, cfg.increaseStep);
    }
  }

  lemma ProductPositive(n: nat, m: int)
    requires m > 0
    ensures n * m >= 0
  {
  }

  /** Whatever the spacing of the clean samples, once they leave time for as many steps up as lead to the maximum the rate
      is at the top: at the maximum, or where the clamped step up is not worth it. */
  lemma CleanReachesTop(cfg: Config, s: State, samples: seq<Sample>)
    requires Normal(cfg) && cfg.min <= s.target <= cfg.max && s.haveClean && AllClean(cfg, samples)
    requires s.target + Climbs(cfg, samples, s.lastChange, s.cleanSince) * cfg.increaseStep >= cfg.max
    ensures AtTop(cfg, Observed(cfg, s, samples).target)
  {
    var n := Climbs(cfg, samples, s.lastChange, s.cleanSince);
    CleanClimbs(cfg, s, samples);
    ClimbedIs(cfg, s.target, n);
  }

  // ---- Unending loss -------------------------------------------------------

  /** What a lossy sample past the cooldown would set. */
  function Lowered(cfg: Config, target: int): int {
    Clamp(Scaled(target, cfg.decreaseFactor), cfg.min, cfg.max)
  }

  /** No lossy sample changes the rate any more. */
  predicate AtRest(cfg: Config, target: int) { Negligible(cfg, target, Lowered(cfg, target)) }

  lemma LossStep(cfg: Config, s: State, x: Sample)
    requires Normal(cfg) && cfg.min <= s.target <= cfg.max && x.loss > cfg.lossThreshold
    ensures var s' := Observe(cfg, s, x.loss, x.at);
            if x.at - s.lastChange < cfg.cooldown || AtRest(cfg, s.target)
            then s'.target == s.target && s'.lastChange == s.lastChange
            else cfg.min <= s'.target < s.target && s'.target == Lowered(cfg, s.target) && s'.lastChange == x.at
  {
    Shrinks(s.target, cfg.decreaseFactor);
    var low := Lowered(cfg, s.target);
    assert cfg.min <= low <= s.target;
    assert Proposal(cfg, Timer(cfg, s, x.loss, x.at), x.loss, x.at) == (low, Decrease);
  }

  lemma Shrinks(t: int, factor: real)
    requires t > 0 && 0.0 < factor < 1.0
    ensures 0 <= Scaled(t, factor) < t && Scaled(t, factor) as real <= t as real * factor
  {
    assert t as real * factor < t as real * 1.0;
    assert t as real * factor >= 0.0;
  }

  ghost predicate AllLossy(cfg: Config, samples: seq<Sample>) {
    forall i :: 0 <= i < |samples| ==> samples[i].loss > cfg.lossThreshold
  }

  ghost function Observed(cfg: Config, s: State, samples: seq<Sample>): State
    decreases |samples|
  {
    if samples == [] then s else Observed(cfg, Observe(cfg, s, samples[0].loss, samples[0].at), samples[1..])
  }

  /** How many of the samples are committed as a change. */
  ghost function Commits(cfg: Config, s: State, samples: seq<Sample>): nat
    decreases |samples|
  {
    if samples == [] then 0 else
    var x := samples[0];
    (if Observe(cfg, s, x.loss, x.at).target != s.target then 1 else 0)
    + Commits(cfg, Observe(cfg, s, x.loss, x.at), samples[1..])
  }

  /** Under unending loss the rate only falls, in finitely many steps, and stays put once at rest. */
  lemma {:induction false} LossSettles(cfg: Config, s: State, samples: seq<Sample>)
    requires Normal(cfg) && cfg.min <= s.target <= cfg.max && AllLossy(cfg, samples)
    ensures var s' := Observed(cfg, s, samples);
            && cfg.min <= s'.target <= s.target
            && Commits(cfg, s, samples) <= s.target - s'.target
            && (AtRest(cfg, s.target) ==> s'.target == s.target)
    decreases |samples|
  {
    if samples != [] {
      LossStep(cfg, s, samples[0]);
      LossSettles(cfg, Observe(cfg, s, samples[0].loss, samples[0].at), samples[1..]);
    }
  }

  /** Samples counted greedily, each at least a cooldown after the one counted before it. */
  ghost function Rounds(cfg: Config, samples: seq<Sample>, from: int): nat
    decreases |samples|
  {
    if samples == [] then 0
    else if samples[0].at - from >= cfg.cooldown then 1 + Rounds(cfg, samples[1..], samples[0].at)
    else Rounds(cfg, samples[1..], from)
  }

  /** However the samples are spaced, every such round is a change until the rate is at rest. */
  lemma {:induction false} RoundsCommit(cfg: Config, s: State, samples: seq<Sample>)
    requires Normal(cfg) && cfg.min <= s.target <= cfg.max && AllLossy(cfg, samples)
    ensures AtRest(cfg, Observed(cfg, s, samples).target) || Commits(cfg, s, samples) == Rounds(cfg, samples, s.lastChange)
    decreases |samples|
  {
    if AtRest(cfg, s.target) {
      LossSettles(cfg, s, samples);
    } else if samples != [] {
      LossStep(cfg, s, samples[0]);
      RoundsCommit(cfg, Observe(cfg, s, samples[0].loss, samples[0].at), samples[1..]);
    }
  }

  /** A rate after n decreases: x * f^n. */
  ghost function Decayed(x: real, f: real, n: nat): real
    decreases n
  {
    if n == 0 then x else Decayed(x * f, f, n - 1)
  }

  lemma {:induction false} DecayedMono(x: real, y: real, f: real, n: nat)
    requires x <= y && 0.0 < f
    ensures Decayed(x, f, n) <= Decayed(y, f, n)
    decreases n
  {
    if n > 0 {
      MulMono(x, y, f);
      DecayedMono(x * f, y * f, f, n - 1);
    }
  }

  /** Under unending loss the rate decays geometrically in its changes until it reaches the minimum. */
  lemma {:induction false} LossDecays(cfg: Config, s: State, samples: seq<Sample>)
    requires Normal(cfg) && cfg.min <= s.target <= cfg.max && AllLossy(cfg, samples)
    ensures var t := Observed(cfg, s, samples).target;
            t == cfg.min || t as real <= Decayed(s.target as real, cfg.decreaseFactor, Commits(cfg, s, samples))
    decreases |samples|
  {
    hide Observe, Decayed;
    if samples != [] {
      var x := samples[0];
      var s1, rest := Observe(cfg, s, x.loss, x.at), samples[1..];
      LossStep(cfg, s, x);
      LossDecays(cfg, s1, rest);
      if s1.target == cfg.min {
        LossSettles(cfg, s1, rest);
        MinIsRest(cfg);
      } else if s1.target != s.target {
        LoweredScales(cfg, s.target);
        DecayStep(s1.target as real, s.target as real, cfg.decreaseFactor, Commits(cfg, s1, rest));
      }
    } else {
      DecayedZero(s.target as real, cfg.decreaseFactor);
    }
  }

  lemma DecayedZero(x: real, f: real)
    ensures Decayed(x, f, 0) == x
  {
  }

  lemma LoweredScales(cfg: Config, target: int)
    requires Normal(cfg) && cfg.min <= target <= cfg.max
    ensures Lowered(cfg, target) == cfg.min || Lowered(cfg, target) as real <= target as real * cfg.decreaseFactor
  {
    Shrinks(target, cfg.decreaseFactor);
  }

  lemma DecayStep(low: real, x: real, f: real, n: nat)
    requires 0.0 < f && low <= x * f
    ensures Decayed(low, f, n) <= Decayed(x, f, n + 1)
  {
    var y := x * f;
    assert Decayed(x, f, n + 1) == Decayed(y, f, n);
    DecayedMono(low, y, f, n);
  }

  /** Whatever the spacing of the samples, the rate comes to rest once they span enough cooldowns: as many as it
      exceeds its minimum always suffice, and already as many decreases as scale it to the minimum do. */
  lemma LossComesToRest(cfg: Config, s: State, samples: seq<Sample>)
    requires Normal(cfg) && cfg.min <= s.target <= cfg.max && AllLossy(cfg, samples)
    requires var n := Rounds(cfg, samples, s.lastChange);
             n >= s.target - cfg.min || Decayed(s.target as real, cfg.decreaseFactor, n) <= cfg.min as real
    ensures AtRest(cfg, Observed(cfg, s, samples).target)
  {
    hide AtRest, Observed, Commits, Rounds, Decayed;
    RoundsCommit(cfg, s, samples);
    LossSettles(cfg, s, samples);
    LossDecays(cfg, s, samples);
    MinIsRest(cfg);
  }

  lemma MinIsRest(cfg: Config)
    requires Normal(cfg)
    ensures AtRest(cfg, cfg.min)
  {
    Shrinks(cfg.min, cfg.decreaseFactor);
  }

  /** Where the rate rests under every usable configuration: at the minimum, where the clamped step down is
      negligible, or where the full step is. */
  lemma RestingPoint(cfg: Config, target: int)
    requires Normal(cfg) && cfg.min <= target <= cfg.max
    ensures AtRest(cfg, target) <==>
            || target == cfg.min
            || (Scaled(target, cfg.decreaseFactor) < cfg.min && target as real * (1.0 - cfg.minChange) < cfg.min as real)
            || (Scaled(target, cfg.decreaseFactor) >= cfg.min
                && target as real * (1.0 - cfg.minChange) < Scaled(target, cfg.decreaseFactor) as real)
  {
    var t, k := target as real, cfg.minChange;
    Shrinks(target, cfg.decreaseFactor);
    assert t * (1.0 - k) == t - k * t;
  }

  /** With the suppressed fraction no larger than the decrease, the rate rests only at or close to the minimum. */
  lemma RestsNearMinimum(cfg: Config, target: int)
    requires Normal(cfg) && cfg.min <= target <= cfg.max && cfg.minChange <= 1.0 - cfg.decreaseFactor
    requires AtRest(cfg, target)
    ensures target == cfg.min || target as real < cfg.min as real / (1.0 - cfg.minChange)
  {
    var t, k := target as real, cfg.minChange;
    RestingPoint(cfg, target);
    BigStep(target, cfg.decreaseFactor, k);
    assert t * (1.0 - k) == t - k * t;
    if target != cfg.min {
      DivideBy(t, 1.0 - k, cfg.min as real);
    }
  }

  /** A full decrease is never negligible when the suppressed fraction is at most the decrease. */
  lemma BigStep(t: int, f: real, k: real)
    requires t > 0 && 0.0 < f < 1.0 && k <= 1.0 - f
    ensures (t - Scaled(t, f)) as real >= k * t as real && Scaled(t, f) < t
  {
    Shrinks(t, f);
    var x, low := t as real, Scaled(t, f);
    calc {
      (t - low) as real;
      x - low as real;
    >=
      x - x * f;
      (1.0 - f) * x;
    >= { MulMono(k, 1.0 - f, x); }
      k * x;
    }
  }

  lemma MulMono(a: real, b: real, x: real)
    requires a <= b && x >= 0.0
    ensures a * x <= b * x
  {
  }

  lemma DivideBy(t: real, d: real, m: real)
    requires d > 0.0 && t * d < m
    ensures t < m / d
  {
    assert t == (t * d) / d;
    assert (m - t * d) / d > 0.0;
  }

  /** A suppressed fraction of 1 or more suppresses every step down. */
  lemma AllAtRest(cfg: Config, target: int)
    requires Normal(cfg) && cfg.min <= target <= cfg.max && cfg.minChange >= 1.0
    ensures AtRest(cfg, target)
  {
    hide Scaled;
    Shrinks(target, cfg.decreaseFactor);
    NothingReaches(target, Lowered(cfg, target), cfg.minChange);
  }

  lemma NothingReaches(target: int, low: int, k: real)
    requires 0 < low <= target && k >= 1.0
    ensures (target - low) as real < k * target as real
  {
    MulMono(1.0, k, target as real);
  }

  /** Rest too high: at rest, although the minimum is out of the reach of a negligible step. This presumes a fraction
      below 1; from 1 on every rate is within such reach, and at rest. */
  predicate RestsTooHigh(cfg: Config, target: int) {
    AtRest(cfg, target) && target != cfg.min && target as real * (1.0 - cfg.minChange) >= cfg.min as real
  }

  /** That happens exactly where the full step down stays inside the suppressed fraction, which needs that
      fraction to exceed the decrease. */
  lemma TooHighExactly(cfg: Config, target: int)
    requires Normal(cfg) && cfg.min < target <= cfg.max
    ensures RestsTooHigh(cfg, target) <==>
            cfg.min as real <= target as real * (1.0 - cfg.minChange) < Scaled(target, cfg.decreaseFactor) as real
    ensures RestsTooHigh(cfg, target) ==> cfg.minChange > 1.0 - cfg.decreaseFactor
  {
    RestingPoint(cfg, target);
    if cfg.minChange <= 1.0 - cfg.decreaseFactor {
      BigStep(target, cfg.decreaseFactor, cfg.minChange);
      assert target as real * (1.0 - cfg.minChange) == target as real - cfg.minChange * target as real;
    }
  }

  /** And when the fraction does exceed the decrease, every rate whose full step stays at or above the minimum is
      at rest, as soon as the excess is worth one bit per second. */
  lemma RestsEverywhere(cfg: Config, target: int)
    requires Normal(cfg) && cfg.min <= target <= cfg.max
    ensures (Scaled(target, cfg.decreaseFactor) >= cfg.min
             && target as real * (cfg.minChange - (1.0 - cfg.decreaseFactor)) >= 1.0) ==> AtRest(cfg, target)
  {
    if target as real * (cfg.minChange - (1.0 - cfg.decreaseFactor)) >= 1.0 {
      RestingPoint(cfg, target);
      FloorAbove(target as real, cfg.decreaseFactor, cfg.minChange);
    }
  }

  /** So some rate of a configuration can rest too high only if the fraction exceeds the decrease and the maximum is
      out of the reach of a negligible step; and then one does, if the excess is worth one bit per second there. */
  lemma ConfigurationRestsTooHigh(cfg: Config)
    requires Normal(cfg)
    ensures (exists t :: cfg.min < t <= cfg.max && RestsTooHigh(cfg, t)) ==>
            cfg.minChange > 1.0 - cfg.decreaseFactor && cfg.max as real * (1.0 - cfg.minChange) >= cfg.min as real
    ensures cfg.max as real * (cfg.minChange - (1.0 - cfg.decreaseFactor)) >= 1.0
            && cfg.max as real * (1.0 - cfg.minChange) >= cfg.min as real ==>
            exists t :: cfg.min < t <= cfg.max && RestsTooHigh(cfg, t)
  {
    hide RestsTooHigh;
    if t :| cfg.min < t <= cfg.max && RestsTooHigh(cfg, t) {
      TooHighExactly(cfg, t);
      ReachMono(t as real, cfg.max as real, 1.0 - cfg.minChange, cfg.min as real);
    }
    if cfg.max as real * (cfg.minChange - (1.0 - cfg.decreaseFactor)) >= 1.0
       && cfg.max as real * (1.0 - cfg.minChange) >= cfg.min as real {
      PositiveFactor(cfg.max as real, cfg.minChange - (1.0 - cfg.decreaseFactor));
      MaximumRestsTooHigh(cfg);
    }
  }

  lemma PositiveFactor(x: real, y: real)
    requires x > 0.0 && x * y >= 1.0
    ensures y > 0.0
  {
  }

  lemma MaximumRestsTooHigh(cfg: Config)
    requires Normal(cfg) && cfg.minChange > 1.0 - cfg.decreaseFactor
    requires cfg.max as real * (cfg.minChange - (1.0 - cfg.decreaseFactor)) >= 1.0
    requires cfg.max as real * (1.0 - cfg.minChange) >= cfg.min as real
    ensures cfg.min < cfg.max && RestsTooHigh(cfg, cfg.max)
  {
    hide RestsTooHigh;
    var m := cfg.max as real;
    ReachBelow(m, cfg.minChange, cfg.min as real);
    FloorAbove(m, cfg.decreaseFactor, cfg.minChange);
    TooHighExactly(cfg, cfg.max);
  }

  lemma FloorAbove(m: real, f: real, k: real)
    requires m * (k - (1.0 - f)) >= 1.0
    ensures m * (1.0 - k) < (m * f).Floor as real
  {
    assert m * (k - (1.0 - f)) == m * f - m * (1.0 - k);
  }

  lemma ReachMono(t: real, m: real, d: real, min: real)
    requires 0.0 < t <= m && 0.0 < min <= t * d
    ensures m * d >= min
  {
    assert d > 0.0;
    assert m * d == t * d + (m - t) * d;
  }

  lemma ReachBelow(m: real, k: real, min: real)
    requires 0.0 < m && 0.0 < k && m * (1.0 - k) >= min
    ensures min < m
  {
    assert m * (1.0 - k) == m - m * k;
  }

  /** A configuration whose start rate never moves. */
  lemma RestsTooHighOtherwise()
    ensures RestsTooHigh(Normalise(DEFAULT.(minChange := 0.3)), DEFAULT.start)
  {
    assert (4_000_000.0 * 0.8).Floor == 3_200_000;
  }
}
