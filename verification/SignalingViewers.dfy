/** The viewers' messages to the host: what the room keeps of them over every run of posts. */
module SignalingViewers {
  import opened Common
  import opened Signaling
  import opened SignalingRuns

  // ---- Payloads, field by field --------------------------------------------

  /** A host payload that is an SDP offer. */
  predicate Offer(p: Payload) { p.Object? && p.typ == Some("offer") }

  /** It names no viewer; an empty name is none. */
  predicate ToNobody(p: Payload) { p.NotAnObject? || p.to.None? || p.to == Some("") }

  /** An offer that erases a viewer's message: one to nobody in particular, or to that very viewer. */
  predicate Erases(offer: Payload, m: Payload) {
    Offer(offer) && (ToNobody(offer) || (m.Object? && m.viewerId == offer.to))
  }

  /** An offer that erases a host's message: one to nobody in particular, or to the same viewer. */
  predicate ErasesOwn(offer: Payload, m: Payload) {
    Offer(offer) && (ToNobody(offer) || (m.Object? && m.to == offer.to))
  }

  /** The resets of the host's and the viewers' messages, spelled out in the payload's fields. */
  lemma ResetsSpelledOut(offer: Payload, m: Payload)
    ensures Resets(offer, m) <==> ErasesOwn(offer, m)
    ensures ResetsViewer(offer, m) <==> Erases(offer, m)
  {
  }

  // ---- One post ------------------------------------------------------------

  /** A post goes to its sender's queue only, unless it is a host's offer. */
  lemma PlainPostFrame(r: Room, peer: Peer, payload: Payload, ts: nat)
    ensures peer.Viewer? ==> Append(r, peer, payload, ts).host == r.host
    ensures peer.Host? && !Offer(payload) ==> Append(r, peer, payload, ts).viewer == r.viewer
  {
  }

  /** How many messages a full queue loses before a post. */
  function Dropped(q: seq<Message>): (k: nat)
    ensures k <= |q| && (k == |q| ==> q == [])
  {
    if |q| < 200 then 0 else |q| - 199
  }

  /** A viewer's post is stored last, behind what the cap leaves, and numbered one above the last. */
  lemma ViewerPost(r: Room, payload: Payload, ts: nat)
    ensures var q := r.viewer;
            Append(r, Viewer, payload, ts).viewer ==
            q[Dropped(q)..] + [Message(if q == [] then 0 else q[|q| - 1].seqNo + 1, ts, payload)]
  {
  }

  /** A host's offer takes out of the viewers' queue exactly what it erases. */
  lemma OfferErases(r: Room, payload: Payload, ts: nat, m: Message)
    requires Offer(payload)
    ensures m in Append(r, Host, payload, ts).viewer <==> m in r.viewer && !Erases(payload, m.payload)
  {
    if !ToNobody(payload) {
      FilterIn(r.viewer, NotFrom(payload.to.value), m);
    }
  }

  /** Polling from the start, the host gets everything that is kept, in order. */
  lemma HostPollsAll(r: Room)
    ensures Poll(r, Host, -1).messages == r.viewer
  {
    FilterAll(r.viewer, SeqAfter(-1));
  }

  lemma {:induction false} FilterAll(q: seq<Message>, keep: Message -> bool)
    requires forall m :: m in q ==> keep(m)
    ensures Filter(q, keep) == q
  {
    if q != [] {
      assert q == [q[0]] + q[1..];
      FilterAll(q[1..], keep);
    }
  }

  /** For either peer and any cursor: exactly the other peer's kept messages above it. */
  lemma PollExact(r: Room, peer: Peer, since: int, m: Message)
    ensures m in Poll(r, peer, since).messages <==> m in (if peer.Host? then r.viewer else r.host) && m.seqNo > since
  {
    FilterIn(if peer.Host? then r.viewer else r.host, SeqAfter(since), m);
  }

  // ---- Runs ----------------------------------------------------------------

  /** A post and who made it; posts are timed by their position. */
  datatype Posted = Posted(peer: Peer, payload: Payload)

  ghost function RoomAfter(posts: seq<Posted>): Room
    decreases |posts|
  {
    if posts == [] then Room([], []) else
    var n := |posts| - 1;
    Append(RoomAfter(posts[..n]), posts[n].peer, posts[n].payload, n)
  }

  /** How many viewer posts came after post n. */
  ghost function ViewersAfter(posts: seq<Posted>, n: nat): nat {
    if |posts| <= n + 1 then 0
    else ViewersAfter(posts[..|posts| - 1], n) + (if posts[|posts| - 1].peer.Viewer? then 1 else 0)
  }

  ghost predicate Erased(posts: seq<Posted>, n: nat)
    requires n < |posts|
  {
    exists m :: n < m < |posts| && posts[m].peer.Host? && Erases(posts[m].payload, posts[n].payload)
  }

  ghost predicate Holds(q: seq<Message>, n: nat) { exists i :: 0 <= i < |q| && q[i].ts == n }

  /** A viewer's post is kept until an offer erases it or 200 later viewer posts push it out. */
  ghost predicate Kept(q: seq<Message>, posts: seq<Posted>, n: nat)
    requires n < |posts|
  {
    if Holds(q, n) then !Erased(posts, n) else Erased(posts, n) || ViewersAfter(posts, n) >= 200
  }

  /** The queue holds viewer posts, in posting order and with increasing numbers. */
  ghost predicate InOrder(q: seq<Message>, posts: seq<Posted>) {
    && (forall i :: 0 <= i < |q| ==> q[i].ts < |posts| && posts[q[i].ts] == Posted(Viewer, q[i].payload))
    && (forall i, j :: 0 <= i < j < |q| ==> q[i].ts < q[j].ts && q[i].seqNo < q[j].seqNo)
  }

  ghost predicate ViewersQueue(q: seq<Message>, posts: seq<Posted>) {
    InOrder(q, posts) && forall n :: 0 <= n < |posts| && posts[n].peer.Viewer? ==> Kept(q, posts, n)
  }

  lemma {:induction false} LaterViewer(posts: seq<Posted>, a: nat, b: nat)
    requires a < b < |posts| && posts[b].peer.Viewer?
    ensures ViewersAfter(posts, a) >= 1 + ViewersAfter(posts, b)
    decreases |posts|
  {
    if |posts| > b + 1 {
      LaterViewer(posts[..|posts| - 1], a, b);
    }
  }

  lemma {:induction false} BehindInQueue(q: seq<Message>, posts: seq<Posted>, i: nat)
    requires InOrder(q, posts) && i < |q|
    ensures ViewersAfter(posts, q[i].ts) >= |q| - 1 - i
    decreases |q| - i
  {
    if i < |q| - 1 {
      BehindInQueue(q, posts, i + 1);
      LaterViewer(posts, q[i].ts, q[i + 1].ts);
    }
  }

  lemma PostsGrow(posts: seq<Posted>, p: Posted, n: nat)
    requires n < |posts|
    ensures var more := posts + [p];
            && more[..|posts|] == posts
            && ViewersAfter(more, n) == ViewersAfter(posts, n) + (if p.peer.Viewer? then 1 else 0)
            && (Erased(more, n) <==> Erased(posts, n) || (p.peer.Host? && Erases(p.payload, posts[n].payload)))
  {
    var more := posts + [p];
    assert more[..|posts|] == posts;
    if Erased(posts, n) {
      var m :| n < m < |posts| && posts[m].peer.Host? && Erases(posts[m].payload, posts[n].payload);
      assert more[m] == posts[m];
    }
    if p.peer.Host? && Erases(p.payload, posts[n].payload) {
      assert more[|posts|] == p;
    }
  }

  // ---- A viewer's post -----------------------------------------------------

  lemma DropOrder(q: seq<Message>, posts: seq<Posted>, k: nat)
    requires InOrder(q, posts) && k <= |q|
    ensures InOrder(q[k..], posts)
  {
    assert forall i :: 0 <= i < |q| - k ==> q[k..][i] == q[k + i];
  }

  lemma SnocOrder(t: seq<Message>, posts: seq<Posted>, msg: Message)
    requires InOrder(t, posts) && msg.ts == |posts| && (t != [] ==> msg.seqNo > t[|t| - 1].seqNo)
    ensures InOrder(t + [msg], posts + [Posted(Viewer, msg.payload)])
  {
    var q, more := t + [msg], posts + [Posted(Viewer, msg.payload)];
    OrderGrows(t, posts, Posted(Viewer, msg.payload));
    forall i, j | 0 <= i < j < |q|
      ensures q[i].ts < q[j].ts && q[i].seqNo < q[j].seqNo
    {
      if j < |t| {
        assert q[i] == t[i] && q[j] == t[j];
      } else {
        assert q[j] == msg && q[i] == t[i];
        assert t[i].ts < |posts|;
      }
    }
  }

  lemma SnocKept(q: seq<Message>, k: nat, posts: seq<Posted>, msg: Message, n: nat)
    requires InOrder(q, posts) && n < |posts| && Kept(q, posts, n) && k <= |q| && (k > 0 ==> |q| - k == 199)
    requires msg.ts == |posts|
    ensures Kept(q[k..] + [msg], posts + [Posted(Viewer, msg.payload)], n)
  {
    PostsGrow(posts, Posted(Viewer, msg.payload), n);
    hide Erases, Erased, ViewersAfter;
    SnocHolds(q, k, msg, n);
    if i :| 0 <= i < k && q[i].ts == n {
      BehindInQueue(q, posts, i);
    }
  }

  lemma SnocHolds(q: seq<Message>, k: nat, msg: Message, n: nat)
    requires k <= |q| && msg.ts != n
    ensures Holds(q[k..] + [msg], n) <==> exists i :: k <= i < |q| && q[i].ts == n
  {
    var t := q[k..] + [msg];
    if i :| k <= i < |q| && q[i].ts == n {
      assert t[i - k] == q[i];
    }
    if j :| 0 <= j < |t| && t[j].ts == n {
      assert t[j] == q[k + j];
    }
  }

  lemma ViewerPostStep(r: Room, posts: seq<Posted>, payload: Payload)
    requires ViewersQueue(r.viewer, posts)
    ensures ViewersQueue(Append(r, Viewer, payload, |posts|).viewer, posts + [Posted(Viewer, payload)])
  {
    hide Append, Kept, InOrder;
    var q, k, more := r.viewer, Dropped(r.viewer), posts + [Posted(Viewer, payload)];
    var msg := Message(if q == [] then 0 else q[|q| - 1].seqNo + 1, |posts|, payload);
    ViewerPost(r, payload, |posts|);
    DropOrder(q, posts, k);
    SnocOrder(q[k..], posts, msg);
    forall n | 0 <= n < |more| && more[n].peer.Viewer?
      ensures Kept(q[k..] + [msg], more, n)
    {
      if n < |posts| {
        assert more[n] == posts[n];
        SnocKept(q, k, posts, msg, n);
      } else {
        LatestIsKept(q[k..] + [msg], more);
      }
    }
  }

  lemma LatestIsKept(q: seq<Message>, posts: seq<Posted>)
    requires q != [] && posts != [] && q[|q| - 1].ts == |posts| - 1
    ensures Kept(q, posts, |posts| - 1)
  {
  }

  // ---- A host's post -------------------------------------------------------

  lemma ConsOrder(m: Message, r: seq<Message>, posts: seq<Posted>)
    requires InOrder(r, posts) && m.ts < |posts| && posts[m.ts] == Posted(Viewer, m.payload)
    requires forall x :: x in r ==> m.ts < x.ts && m.seqNo < x.seqNo
    ensures InOrder([m] + r, posts)
  {
    var q := [m] + r;
    forall i, j | 0 <= i < j < |q|
      ensures q[i].ts < q[j].ts && q[i].seqNo < q[j].seqNo
    {
      assert q[j] == r[j - 1] && r[j - 1] in r;
      if i > 0 {
        assert q[i] == r[i - 1];
      }
    }
  }

  lemma {:induction false} FilterOrder(q: seq<Message>, posts: seq<Posted>, keep: Message -> bool)
    requires InOrder(q, posts)
    ensures InOrder(Filter(q, keep), posts)
  {
    if q != [] {
      DropOrder(q, posts, 1);
      FilterOrder(q[1..], posts, keep);
      var r := Filter(q[1..], keep);
      forall x | x in r
        ensures q[0].ts < x.ts && q[0].seqNo < x.seqNo
      {
        FilterIn(q[1..], keep, x);
        var j :| 0 <= j < |q| - 1 && q[1..][j] == x;
        assert q[j + 1] == x;
      }
      ConsOrder(q[0], r, posts);
    }
  }

  lemma HostPostOrder(r: Room, posts: seq<Posted>, payload: Payload)
    requires InOrder(r.viewer, posts)
    ensures InOrder(Append(r, Host, payload, |posts|).viewer, posts + [Posted(Host, payload)])
  {
    if Offer(payload) && !ToNobody(payload) {
      FilterOrder(r.viewer, posts, NotFrom(payload.to.value));
    }
    OrderGrows(Append(r, Host, payload, |posts|).viewer, posts, Posted(Host, payload));
  }

  lemma OrderGrows(q: seq<Message>, posts: seq<Posted>, p: Posted)
    requires InOrder(q, posts)
    ensures InOrder(q, posts + [p])
  {
  }

  lemma HostPostMembers(r: Room, payload: Payload, ts: nat, m: Message)
    ensures m in Append(r, Host, payload, ts).viewer <==> m in r.viewer && !Erases(payload, m.payload)
  {
    if Offer(payload) {
      OfferErases(r, payload, ts, m);
    } else {
      PlainPostFrame(r, Host, payload, ts);
    }
  }

  lemma HostPostKept(r: Room, posts: seq<Posted>, payload: Payload, n: nat)
    requires InOrder(r.viewer, posts) && n < |posts| && Kept(r.viewer, posts, n)
    ensures Kept(Append(r, Host, payload, |posts|).viewer, posts + [Posted(Host, payload)], n)
  {
    var q := Append(r, Host, payload, |posts|).viewer;
    PostsGrow(posts, Posted(Host, payload), n);
    forall m: Message
      ensures m in q <==> m in r.viewer && !Erases(payload, m.payload)
    {
      HostPostMembers(r, payload, |posts|, m);
    }
    hide Append, Erases;
    HeldAfter(q, r.viewer, posts, payload, n);
  }

  lemma HeldAfter(q: seq<Message>, before: seq<Message>, posts: seq<Posted>, payload: Payload, n: nat)
    requires InOrder(before, posts) && n < |posts|
    requires forall m: Message :: m in q <==> m in before && !Erases(payload, m.payload)
    ensures Holds(q, n) <==> Holds(before, n) && !Erases(payload, posts[n].payload)
  {
    hide Erases;
    if Holds(q, n) {
      var i :| 0 <= i < |q| && q[i].ts == n;
      assert q[i] in q && q[i] in before;
      var j :| 0 <= j < |before| && before[j] == q[i];
    }
    if Holds(before, n) && !Erases(payload, posts[n].payload) {
      var j :| 0 <= j < |before| && before[j].ts == n;
      assert before[j] in before && before[j] in q;
      var i :| 0 <= i < |q| && q[i] == before[j];
    }
  }

  lemma HostPostStep(r: Room, posts: seq<Posted>, payload: Payload)
    requires ViewersQueue(r.viewer, posts)
    ensures ViewersQueue(Append(r, Host, payload, |posts|).viewer, posts + [Posted(Host, payload)])
  {
    var q, more := Append(r, Host, payload, |posts|).viewer, posts + [Posted(Host, payload)];
    HostPostOrder(r, posts, payload);
    hide Append, Kept;
    forall n | 0 <= n < |more| && more[n].peer.Viewer?
      ensures Kept(q, more, n)
    {
      HostPostKept(r, posts, payload, n);
    }
  }

  /** Over every run of posts the viewers' queue holds their posts in posting order with increasing numbers, and a viewer's
      post is missing only if a later offer erased it or 200 later viewer posts pushed it out; nothing erased is kept. */
  lemma {:induction false} ViewerMessagesKept(posts: seq<Posted>)
    ensures ViewersQueue(RoomAfter(posts).viewer, posts)
    decreases |posts|
  {
    if posts != [] {
      var n := |posts| - 1;
      var before, p := posts[..n], posts[n];
      ViewerMessagesKept(before);
      assert posts == before + [p];
      if p.peer.Viewer? {
        ViewerPostStep(RoomAfter(before), before, p.payload);
        assert p == Posted(Viewer, p.payload);
      } else {
        HostPostStep(RoomAfter(before), before, p.payload);
        assert p == Posted(Host, p.payload);
      }
    }
  }

  /** So the latest viewer post, unless an offer erased it, is last in the queue and last in what the host polls. */
  lemma LatestViewerPostIsLast(posts: seq<Posted>, n: nat)
    requires n < |posts| && posts[n].peer.Viewer? && ViewersAfter(posts, n) == 0 && !Erased(posts, n)
    ensures var got := Poll(RoomAfter(posts), Host, -1).messages;
            got != [] && got[|got| - 1].ts == n && got[|got| - 1].payload == posts[n].payload
  {
    var q := RoomAfter(posts).viewer;
    ViewerMessagesKept(posts);
    HostPollsAll(RoomAfter(posts));
    hide RoomAfter, Poll, Erased;
    assert Kept(q, posts, n);
    var i :| 0 <= i < |q| && q[i].ts == n;
    BehindInQueue(q, posts, i);
  }
}
