/** What every run of posts and polls guarantees. */
module SignalingRuns {
  import opened Common
  import opened Signaling

  // ---- Host log and retention ----------------------------------------------

  ghost predicate Sorted(q: seq<Message>) { forall i, j :: 0 <= i < j < |q| ==> q[i].seqNo < q[j].seqNo }

  /** An offer that resets the session a host message belongs to. */
  ghost predicate Resets(offer: Payload, p: Payload) {
    offer.IsOffer() && (offer.To().None? || offer.To() == p.To())
  }

  /** A later host post in the log reset message n. */
  ghost predicate Covered(log: seq<Message>, n: nat)
    requires n < |log|
  {
    exists m :: n < m < |log| && Resets(log[m].payload, log[n].payload)
  }

  /** Only a later offer or 200 later host posts make the room forget a host message. */
  ghost predicate Lost(log: seq<Message>, n: nat)
    requires n < |log|
  {
    Covered(log, n) || |log| > n + 200
  }

  /** Host messages are numbered in posting order, and the queue is a part of the log that ends with its end. */
  ghost predicate Numbered(q: seq<Message>, log: seq<Message>) {
    && (forall n :: 0 <= n < |log| ==> log[n].seqNo == n)
    && Sorted(q) && |q| <= MAX_QUEUE_LENGTH
    && (forall i :: 0 <= i < |q| ==> q[i].seqNo < |log| && log[q[i].seqNo] == q[i])
    && (if log == [] then q == [] else q != [] && q[|q| - 1] == log[|log| - 1])
  }

  /** Nothing reset is kept, and nothing is forgotten without a reason. */
  ghost predicate Fate(q: seq<Message>, log: seq<Message>, n: nat)
    requires n < |log|
  {
    if log[n] in q then !Covered(log, n) else Lost(log, n)
  }

  /** `q` is the host queue after the host posts in `log`. */
  ghost predicate HostQueue(q: seq<Message>, log: seq<Message>) {
    Numbered(q, log) && forall n :: 0 <= n < |log| ==> Fate(q, log, n)
  }

  lemma {:induction false} FilterIn(q: seq<Message>, keep: Message -> bool, m: Message)
    ensures m in Filter(q, keep) <==> m in q && keep(m)
  {
    if q != [] {
      assert q == [q[0]] + q[1..];
      FilterIn(q[1..], keep, m);
    }
  }

  lemma {:induction false} FilterSorted(q: seq<Message>, keep: Message -> bool)
    requires Sorted(q)
    ensures Sorted(Filter(q, keep))
  {
    if q != [] {
      FilterSorted(q[1..], keep);
      var r := Filter(q[1..], keep);
      forall j | 0 <= j < |r|
        ensures q[0].seqNo < r[j].seqNo
      {
        FilterIn(q[1..], keep, r[j]);
      }
    }
  }

  lemma {:induction false} SortedGap(q: seq<Message>, i: nat, j: nat)
    requires Sorted(q) && i <= j < |q|
    ensures q[i].seqNo + (j - i) <= q[j].seqNo
    decreases j - i
  {
    if i < j {
      SortedGap(q, i, j - 1);
    }
  }

  lemma TrimKeepsEnd(q: seq<Message>, log: seq<Message>)
    requires Numbered(q, log)
    ensures Sorted(Trim(q)) && NextSeq(Trim(q)) == |log|
  {
  }

  /** The cap drops a message only after 199 newer ones were queued behind it. */
  lemma TrimDrops(q: seq<Message>, log: seq<Message>, n: nat)
    requires Numbered(q, log) && n < |log| && log[n] in q && log[n] !in Trim(q)
    ensures |log| >= n + MAX_QUEUE_LENGTH
  {
    var k := Excess(q);
    var i :| 0 <= i < |q| && q[i] == log[n];
    assert q == q[..k] + Trim(q);
    SortedGap(q, i, |q| - 1);
  }

  /** Growing the log by a post keeps what is covered and lost. */
  lemma LogGrows(log: seq<Message>, msg: Message, n: nat)
    requires n < |log|
    ensures Covered(log + [msg], n) <==> Covered(log, n) || Resets(msg.payload, log[n].payload)
    ensures Lost(log, n) ==> Lost(log + [msg], n)
  {
    var log' := log + [msg];
    if Covered(log, n) {
      var m :| n < m < |log| && Resets(log[m].payload, log[n].payload);
      assert log'[m] == log[m];
    }
    if Resets(msg.payload, log[n].payload) {
      assert log'[|log|] == msg;
    }
  }

  /** The queue after a post: the trimmed queue less what the post resets, then the post. */
  ghost predicate Kept(q: seq<Message>, kept: seq<Message>, msg: Message) {
    && Sorted(kept) && |kept| < MAX_QUEUE_LENGTH
    && forall m :: m in kept <==> m in Trim(q) && !Resets(msg.payload, m.payload)
  }

  lemma StepNumbered(q: seq<Message>, log: seq<Message>, kept: seq<Message>, msg: Message)
    requires Numbered(q, log) && msg.seqNo == |log| && Kept(q, kept, msg)
    ensures Numbered(kept + [msg], log + [msg])
  {
    var q' := kept + [msg];
    forall i | 0 <= i < |kept|
      ensures kept[i].seqNo < |log| && log[kept[i].seqNo] == kept[i]
    {
      assert kept[i] in kept && kept[i] in Trim(q);
    }
    assert forall i :: 0 <= i < |q'| ==> q'[i] == if i < |kept| then kept[i] else msg;
  }

  lemma StepFate(q: seq<Message>, log: seq<Message>, kept: seq<Message>, msg: Message, n: nat)
    requires Numbered(q, log) && msg.seqNo == |log| && Kept(q, kept, msg)
    requires n < |log| && Fate(q, log, n)
    ensures Fate(kept + [msg], log + [msg], n)
  {
    LogGrows(log, msg, n);
    assert q == q[..Excess(q)] + Trim(q);
    if log[n] in q && log[n] !in Trim(q) {
      TrimDrops(q, log, n);
    }
  }

  lemma HostStep(q: seq<Message>, log: seq<Message>, kept: seq<Message>, msg: Message)
    requires HostQueue(q, log) && msg.seqNo == |log| && Kept(q, kept, msg)
    ensures HostQueue(kept + [msg], log + [msg])
  {
    StepNumbered(q, log, kept, msg);
    forall n | 0 <= n < |log + [msg]|
      ensures Fate(kept + [msg], log + [msg], n)
    {
      if n < |log| {
        StepFate(q, log, kept, msg, n);
      }
    }
  }

  lemma AppendHost(r: Room, log: seq<Message>, payload: Payload, ts: nat)
    requires HostQueue(r.host, log)
    ensures NewMessage(r, Host, payload, ts) == Message(|log|, ts, payload)
    ensures HostQueue(Append(r, Host, payload, ts).host, log + [Message(|log|, ts, payload)])
  {
    TrimKeepsEnd(r.host, log);
    var msg, t := Message(|log|, ts, payload), Trim(r.host);
    if !payload.IsOffer() {
      HostStep(r.host, log, t, msg);
    } else if payload.To().None? {
      HostStep(r.host, log, [], msg);
      assert [] + [msg] == [msg];
    } else {
      var keep := NotTo(payload.To().value);
      FilterSorted(t, keep);
      forall m: Message
        ensures m in Filter(t, keep) <==> m in t && !Resets(payload, m.payload)
      {
        FilterIn(t, keep, m);
      }
      HostStep(r.host, log, Filter(t, keep), msg);
    }
  }

  // ---- The viewers' queue --------------------------------------------------

  /** An offer that resets the session a viewer message belongs to. */
  ghost predicate ResetsViewer(offer: Payload, p: Payload) {
    offer.IsOffer() && (offer.To().None? || offer.To() == p.From())
  }

  /** Every kept viewer message is younger than every offer to its sender. */
  ghost predicate ViewerQueue(q: seq<Message>, log: seq<Message>, clock: nat) {
    && |q| <= MAX_QUEUE_LENGTH
    && (forall i :: 0 <= i < |q| ==> q[i].ts < clock)
    && (forall n :: 0 <= n < |log| ==> log[n].ts < clock)
    && (forall i, n :: 0 <= i < |q| && 0 <= n < |log| && ResetsViewer(log[n].payload, q[i].payload) ==> log[n].ts < q[i].ts)
  }

  lemma ViewerStepHost(r: Room, log: seq<Message>, payload: Payload, clock: nat)
    requires ViewerQueue(r.viewer, log, clock)
    ensures ViewerQueue(Append(r, Host, payload, clock).viewer, log + [Message(|log|, clock, payload)], clock + 1)
  {
    var q', log' := Append(r, Host, payload, clock).viewer, log + [Message(|log|, clock, payload)];
    forall i | 0 <= i < |q'|
      ensures q'[i] in r.viewer && !ResetsViewer(payload, q'[i].payload)
    {
      if payload.IsOffer() && payload.To().Some? {
        FilterIn(r.viewer, NotFrom(payload.To().value), q'[i]);
      }
    }
  }

  lemma ViewerStepViewer(r: Room, log: seq<Message>, payload: Payload, clock: nat)
    requires ViewerQueue(r.viewer, log, clock)
    ensures ViewerQueue(Append(r, Viewer, payload, clock).viewer, log, clock + 1)
  {
    var q' := Append(r, Viewer, payload, clock).viewer;
    assert forall i :: 0 <= i < |q'| - 1 ==> q'[i] == r.viewer[Excess(r.viewer) + i];
  }

  // ---- Runs with a polling viewer ------------------------------------------

  datatype Op = Post(peer: Peer, payload: Payload) | ViewerPoll

  /** A room, the host posts so far, and a viewer that feeds each nextSince into its next poll;
      `polls` holds how many host posts each poll had before it. */
  datatype Run = Run(room: Room, clock: nat, log: seq<Message>, since: int, received: seq<Message>, polls: seq<nat>)

  ghost function Start(): Run { Run(Room([], []), 0, [], -1, [], []) }

  ghost function Step(s: Run, op: Op): Run {
    match op
    case Post(peer, payload) =>
      var msg := NewMessage(s.room, peer, payload, s.clock);
      s.(room := Append(s.room, peer, payload, s.clock), clock := s.clock + 1,
         log := if peer.Host? then s.log + [msg] else s.log)
    case ViewerPoll =>
      var r := Poll(s.room, Viewer, s.since);
      s.(since := r.nextSince, received := s.received + r.messages, polls := s.polls + [|s.log|])
  }

  ghost function Execute(ops: seq<Op>): Run
    decreases |ops|
  {
    if ops == [] then Start() else Step(Execute(ops[..|ops| - 1]), ops[|ops| - 1])
  }

  ghost function Last(polls: seq<nat>): nat { if polls == [] then 0 else polls[|polls| - 1] }

  /** How many host posts the first poll after message n had before it; 0 if there is none yet. */
  ghost function NextPoll(polls: seq<nat>, n: nat): nat {
    if polls == [] then 0 else if polls[0] > n then polls[0] else NextPoll(polls[1..], n)
  }

  /** Message n was handed over, or was gone by the first poll after it. */
  ghost predicate Delivered(log: seq<Message>, received: seq<Message>, polls: seq<nat>, n: nat)
    requires n < |log|
  {
    var p := NextPoll(polls, n);
    n < p <= |log| && if log[n] in received then !Covered(log[..p], n) else Lost(log[..p], n)
  }

  ghost predicate Delivery(s: Run) {
    && s.since == Last(s.polls) - 1
    && (forall i :: 0 <= i < |s.polls| ==> s.polls[i] <= Last(s.polls) <= |s.log|)
    && Sorted(s.received)
    && (forall i :: 0 <= i < |s.received| ==> s.received[i].seqNo < Last(s.polls) && s.log[s.received[i].seqNo] == s.received[i])
    && (forall n :: 0 <= n < Last(s.polls) ==> Delivered(s.log, s.received, s.polls, n))
  }

  ghost predicate Inv(s: Run) {
    HostQueue(s.room.host, s.log) && ViewerQueue(s.room.viewer, s.log, s.clock) && Delivery(s)
  }

  lemma {:induction false} NextPollSnoc(polls: seq<nat>, p: nat, n: nat)
    requires n < Last(polls) || n < p
    ensures n < Last(polls) ==> NextPoll(polls + [p], n) == NextPoll(polls, n)
    ensures (forall i :: 0 <= i < |polls| ==> polls[i] <= n) && n < p ==> NextPoll(polls + [p], n) == p
  {
    if polls != [] && polls[0] <= n {
      assert (polls + [p])[1..] == polls[1..] + [p];
      if |polls| > 1 {
        NextPollSnoc(polls[1..], p, n);
      }
    }
  }

  lemma PostKeepsDelivery(s: Run, payload: Payload, peer: Peer)
    requires HostQueue(s.room.host, s.log) && Delivery(s)
    ensures Delivery(Step(s, Post(peer, payload)))
  {
    var s' := Step(s, Post(peer, payload));
    forall n | 0 <= n < Last(s.polls)
      ensures Delivered(s'.log, s'.received, s'.polls, n)
    {
      assert Delivered(s.log, s.received, s.polls, n);
      var p := NextPoll(s.polls, n);
      assert s'.log[..p] == s.log[..p];
    }
  }

  /** A poll returns what is kept of everything posted since the last one, in order. */
  lemma PollReturns(q: seq<Message>, log: seq<Message>, since: int)
    requires HostQueue(q, log) && -1 <= since < |log|
    ensures var r := PollQueue(q, since);
            && r.nextSince == |log| - 1 && Sorted(r.messages)
            && (forall m :: m in r.messages <==> m in q && m.seqNo > since)
  {
    var r := PollQueue(q, since);
    FilterSorted(q, SeqAfter(since));
    forall m: Message
      ensures m in r.messages <==> m in q && m.seqNo > since
    {
      FilterIn(q, SeqAfter(since), m);
    }
    if since < |log| - 1 {
      var last := log[|log| - 1];
      assert last in r.messages;
      var k :| 0 <= k < |r.messages| && r.messages[k] == last;
      assert r.messages[|r.messages| - 1] in r.messages;
    }
  }

  lemma PolledFate(q: seq<Message>, s: Run, got: seq<Message>, n: nat)
    requires HostQueue(q, s.log) && Delivery(s)
    requires forall m :: m in got <==> m in q && m.seqNo > s.since
    requires n < |s.log|
    ensures Delivered(s.log, s.received + got, s.polls + [|s.log|], n)
  {
    var log := s.log;
    if n < Last(s.polls) {
      assert Delivered(log, s.received, s.polls, n);
      NextPollSnoc(s.polls, |log|, n);
      assert log[n] !in got;
    } else {
      NextPollSnoc(s.polls, |log|, n);
      assert log[..|log|] == log;
      assert Fate(q, log, n);
      assert log[n] !in s.received;
    }
  }

  lemma PollKeepsDelivery(s: Run)
    requires HostQueue(s.room.host, s.log) && Delivery(s)
    ensures Delivery(Step(s, ViewerPoll))
  {
    var s' := Step(s, ViewerPoll);
    var got := Poll(s.room, Viewer, s.since).messages;
    PollReturns(s.room.host, s.log, s.since);
    forall n | 0 <= n < |s.log|
      ensures Delivered(s'.log, s'.received, s'.polls, n)
    {
      PolledFate(s.room.host, s, got, n);
    }
    forall i | 0 <= i < |got|
      ensures s.since < got[i].seqNo < |s.log| && s.log[got[i].seqNo] == got[i]
    {
      assert got[i] in got && got[i] in s.room.host;
    }
    SortedAppend(s.received, got, s.since, s.log);
  }

  lemma SortedAppend(a: seq<Message>, b: seq<Message>, bound: int, log: seq<Message>)
    requires Sorted(a) && Sorted(b)
    requires forall i :: 0 <= i < |a| ==> a[i].seqNo <= bound && a[i].seqNo < |log| && log[a[i].seqNo] == a[i]
    requires forall i :: 0 <= i < |b| ==> bound < b[i].seqNo < |log| && log[b[i].seqNo] == b[i]
    ensures Sorted(a + b)
    ensures forall i :: 0 <= i < |a + b| ==> (a + b)[i].seqNo < |log| && log[(a + b)[i].seqNo] == (a + b)[i]
  {
    assert forall i :: 0 <= i < |a + b| ==> (a + b)[i] == if i < |a| then a[i] else b[i - |a|];
  }

  lemma HostPostInv(s: Run, payload: Payload)
    requires Inv(s)
    ensures Inv(Step(s, Post(Host, payload)))
  {
    AppendHost(s.room, s.log, payload, s.clock);
    ViewerStepHost(s.room, s.log, payload, s.clock);
    PostKeepsDelivery(s, payload, Host);
  }

  lemma ViewerPostInv(s: Run, payload: Payload)
    requires Inv(s)
    ensures Inv(Step(s, Post(Viewer, payload)))
  {
    ViewerStepViewer(s.room, s.log, payload, s.clock);
    PostKeepsDelivery(s, payload, Viewer);
  }

  lemma StepInv(s: Run, op: Op)
    requires Inv(s)
    ensures Inv(Step(s, op))
  {
    match op {
      case Post(Host, payload) => HostPostInv(s, payload);
      case Post(Viewer, payload) => ViewerPostInv(s, payload);
      case ViewerPoll => PollKeepsDelivery(s);
    }
  }

  lemma {:induction false} ExecuteInv(ops: seq<Op>)
    ensures Inv(Execute(ops))
    decreases |ops|
  {
    if ops != [] {
      ExecuteInv(ops[..|ops| - 1]);
      StepInv(Execute(ops[..|ops| - 1]), ops[|ops| - 1]);
    }
  }

  // ---- The promises --------------------------------------------------------

  /** Over any run the n-th host post carries sequence number n, whatever was reset or truncated. */
  lemma HostNumbersArePostingOrder(ops: seq<Op>)
    ensures var s := Execute(ops);
            && (forall n :: 0 <= n < |s.log| ==> s.log[n].seqNo == n)
            && (forall i :: 0 <= i < |s.room.host| ==>
                  s.room.host[i].seqNo < |s.log| && s.room.host[i] == s.log[s.room.host[i].seqNo])
            && |s.room.host| <= 200 && |s.room.viewer| <= 200
  {
    ExecuteInv(ops);
  }

  /** The polling viewer gets host messages in order, each at most once, and misses one only if an
      offer or 200 later posts removed it before the viewer's next poll. */
  lemma PollerDelivery(ops: seq<Op>)
    ensures var s := Execute(ops);
            && Sorted(s.received)
            && (forall i :: 0 <= i < |s.received| ==> s.received[i].seqNo < |s.log| && s.log[s.received[i].seqNo] == s.received[i])
            && Last(s.polls) <= |s.log|
            && (forall n :: 0 <= n < Last(s.polls) ==> Delivered(s.log, s.received, s.polls, n))
  {
    ExecuteInv(ops);
  }

  /** Whatever the room still holds for or from a viewer is no older than the latest offer to that viewer. */
  lemma OfferResetIsolation(ops: seq<Op>)
    ensures var s := Execute(ops);
            && (forall n :: 0 <= n < |s.log| && s.log[n] in s.room.host ==> !Covered(s.log, n))
            && ViewerQueue(s.room.viewer, s.log, s.clock)
  {
    ExecuteInv(ops);
    var s := Execute(ops);
    forall n | 0 <= n < |s.log| && s.log[n] in s.room.host
      ensures !Covered(s.log, n)
    {
      assert Fate(s.room.host, s.log, n);
    }
  }

  lemma {:induction false} FilterTwice(q: seq<Message>, keep: Message -> bool, other: Message -> bool)
    requires forall m: Message :: other(m) ==> keep(m)
    ensures Filter(Filter(q, keep), other) == Filter(q, other)
  {
    if q != [] {
      FilterTwice(q[1..], keep, other);
      assert keep(q[0]) ==> ([q[0]] + Filter(q[1..], keep))[1..] == Filter(q[1..], keep);
    }
  }

  lemma {:induction false} FilterSnoc(q: seq<Message>, m: Message, keep: Message -> bool)
    ensures Filter(q + [m], keep) == Filter(q, keep) + (if keep(m) then [m] else [])
  {
    if q != [] {
      assert (q + [m])[1..] == q[1..] + [m];
      FilterSnoc(q[1..], m, keep);
    }
  }

  /** An offer to one viewer leaves everyone else's queued messages, in order, apart from the cap. */
  lemma OfferLeavesOthers(r: Room, payload: Payload, ts: nat, target: string, other: Message -> bool, sender: Message -> bool)
    requires payload.IsOffer() && payload.To() == Some(target)
    requires forall m: Message :: other(m) ==> m.payload.To() != Some(target)
    requires forall m: Message :: sender(m) ==> m.payload.From() != Some(target)
    ensures var r' := Append(r, Host, payload, ts);
            Filter(r'.host, other) == Filter(Trim(r.host), other) && Filter(r'.viewer, sender) == Filter(r.viewer, sender)
  {
    var msg := NewMessage(r, Host, payload, ts);
    var kept := Filter(Trim(r.host), NotTo(target));
    FilterSnoc(kept, msg, other);
    assert Filter(kept, other) + [] == Filter(kept, other);
    FilterTwice(Trim(r.host), NotTo(target), other);
    FilterTwice(r.viewer, NotFrom(target), sender);
  }
}
