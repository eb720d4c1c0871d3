/** The Durable Object around the room: long polls held as waiters and answered on the next post. */
module SignalingLongPoll {
  import opened Common
  import opened Signaling
  import opened SignalingRuns

  const MAX_WAIT_SECONDS := 25

  /** A query parameter after parseInt. */
  datatype Param = Absent | NotANumber | Number(n: int)

  /** The cursor a GET asks from, None when it is refused. */
  function Cursor(p: Param): (c: Option<int>)
    ensures c.Some? <==> p.Absent? || (p.Number? && p.n >= -1)
    ensures c.Some? ==> c.value == if p.Absent? then -1 else p.n
  {
    match p
    case Absent => Some(-1)
    case NotANumber => None
    case Number(n) => if n < -1 then None else Some(n)
  }

  /** How long a GET is willing to wait: at most 25 seconds, not at all unless it says so. */
  function WaitSeconds(p: Param): (w: nat)
    ensures w <= 25 && (w > 0 <==> p.Number? && p.n > 0)
    ensures p.Number? && 0 < p.n <= 25 ==> w == p.n
    ensures p.Number? && p.n > 25 ==> w == 25
  {
    if !p.Number? || p.n < 0 then 0 else if p.n > MAX_WAIT_SECONDS then MAX_WAIT_SECONDS else p.n
  }

  /** A held request and the seconds its timer was set to. */
  datatype Waiter = Waiter(id: nat, peer: Peer, since: int, seconds: nat)

  datatype Response = Response(id: nat, body: PollResult)

  predicate Woken(w: Waiter, recipient: Peer, msg: Message) { w.peer == recipient && msg.seqNo > w.since }

  function StillWaiting(ws: seq<Waiter>, recipient: Peer, msg: Message): seq<Waiter> {
    if ws == [] then []
    else (if Woken(ws[0], recipient, msg) then [] else [ws[0]]) + StillWaiting(ws[1..], recipient, msg)
  }

  function Answers(ws: seq<Waiter>, recipient: Peer, msg: Message): seq<Response> {
    if ws == [] then []
    else (if Woken(ws[0], recipient, msg) then [Response(ws[0].id, PollResult([msg], msg.seqNo))] else [])
         + Answers(ws[1..], recipient, msg)
  }

  lemma NotifyTurn(ws: seq<Waiter>, i: nat, recipient: Peer, msg: Message, kept: seq<Waiter>, sent: seq<Response>)
    requires i < |ws|
    ensures kept + StillWaiting(ws[i..], recipient, msg) ==
            (if Woken(ws[i], recipient, msg) then kept else kept + [ws[i]]) + StillWaiting(ws[i + 1..], recipient, msg)
    ensures sent + Answers(ws[i..], recipient, msg) ==
            (if Woken(ws[i], recipient, msg) then sent + [Response(ws[i].id, PollResult([msg], msg.seqNo))] else sent)
            + Answers(ws[i + 1..], recipient, msg)
  {
    assert ws[i..][1..] == ws[i + 1..];
  }

  lemma NotifyEnd(ws: seq<Waiter>, recipient: Peer, msg: Message)
    ensures ws[0..] == ws && StillWaiting(ws[|ws|..], recipient, msg) == [] && Answers(ws[|ws|..], recipient, msg) == []
  {
  }

  function Remove(ws: seq<Waiter>, id: nat): seq<Waiter> {
    if ws == [] then [] else (if ws[0].id == id then [] else [ws[0]]) + Remove(ws[1..], id)
  }

  function Expired(ws: seq<Waiter>, id: nat): seq<Response> {
    if ws == [] then []
    else (if ws[0].id == id then [Response(id, PollResult([], ws[0].since))] else []) + Expired(ws[1..], id)
  }

  lemma TimerTurn(ws: seq<Waiter>, i: nat, id: nat, kept: seq<Waiter>, sent: seq<Response>)
    requires i < |ws|
    ensures kept + Remove(ws[i..], id) == (if ws[i].id == id then kept else kept + [ws[i]]) + Remove(ws[i + 1..], id)
    ensures sent + Expired(ws[i..], id) ==
            (if ws[i].id == id then sent + [Response(id, PollResult([], ws[i].since))] else sent) + Expired(ws[i + 1..], id)
  {
    assert ws[i..][1..] == ws[i + 1..];
  }

  lemma TimerEnd(ws: seq<Waiter>, id: nat)
    ensures ws[0..] == ws && Remove(ws[|ws|..], id) == [] && Expired(ws[|ws|..], id) == []
  {
  }

  /** The room and its held requests; `responses` is everything answered so far. */
  class RoomDO {
    const room: RoomState
    var waiters: seq<Waiter>
    var responses: seq<Response>

    constructor ()
      ensures fresh(room) && room.View() == Room([], []) && waiters == [] && responses == []
    {
      room := new RoomState();
      waiters, responses := [], [];
    }

    /** A GET: refused with a bad cursor, answered at once when there is data or no wait was asked for, else held. */
    method HandleGet(id: nat, peer: Peer, sinceParam: Param, waitParam: Param) returns (accepted: bool)
      modifies this
      ensures accepted <==> sinceParam.Absent? || (sinceParam.Number? && sinceParam.n >= -1)
      ensures !accepted ==> waiters == old(waiters) && responses == old(responses)
      ensures accepted ==>
                var since, wait := Cursor(sinceParam).value, WaitSeconds(waitParam);
                var r := Poll(room.View(), peer, since);
                if r.messages != [] || wait == 0
                then waiters == old(waiters) && responses == old(responses) + [Response(id, r)]
                else waiters == old(waiters) + [Waiter(id, peer, since, wait)] && responses == old(responses)
    {
      var since := if sinceParam.Number? then sinceParam.n else -1;
      if !sinceParam.Absent? && (sinceParam.NotANumber? || since < -1) {
        return false;
      }
      var wait := if waitParam.Number? then waitParam.n else 0;
      if wait < 0 {
        wait := 0;
      }
      if wait > MAX_WAIT_SECONDS {
        wait := MAX_WAIT_SECONDS;
      }
      var messages := room.FilterQueue(if peer.Host? then room.viewerQueue else room.hostQueue, SeqAfter(since));
      var nextSince := if |messages| > 0 then messages[|messages| - 1].seqNo else since;
      if |messages| > 0 || wait == 0 {
        responses := responses + [Response(id, PollResult(messages, nextSince))];
        return true;
      }
      waiters := waiters + [Waiter(id, peer, since, wait)];
      return true;
    }

    /** A held request's timer fires: it is answered with nothing and its cursor stays. */
    method TimerFired(id: nat)
      modifies this
      ensures waiters == Remove(old(waiters), id)
      ensures responses == old(responses) + Expired(old(waiters), id)
    {
      hide Remove, Expired;
      var all := waiters;
      waiters := [];
      TimerEnd(all, id);
      for i := 0 to |all|
        invariant waiters + Remove(all[i..], id) == Remove(all, id)
        invariant responses + Expired(all[i..], id) == old(responses) + Expired(all, id)
      {
        TimerTurn(all, i, id, waiters, responses);
        if all[i].id == id {
          responses := responses + [Response(id, PollResult([], all[i].since))];
        } else {
          waiters := waiters + [all[i]];
        }
      }
    }

    method Notify(recipient: Peer, msg: Message)
      modifies this
      ensures waiters == StillWaiting(old(waiters), recipient, msg)
      ensures responses == old(responses) + Answers(old(waiters), recipient, msg)
    {
      hide StillWaiting, Answers;
      var all := waiters;
      waiters := [];
      NotifyEnd(all, recipient, msg);
      for i := 0 to |all|
        invariant waiters + StillWaiting(all[i..], recipient, msg) == StillWaiting(all, recipient, msg)
        invariant responses + Answers(all[i..], recipient, msg) == old(responses) + Answers(all, recipient, msg)
      {
        NotifyTurn(all, i, recipient, msg, waiters, responses);
        if Woken(all[i], recipient, msg) {
          responses := responses + [Response(all[i].id, PollResult([msg], msg.seqNo))];
        } else {
          waiters := waiters + [all[i]];
        }
      }
    }

    method HandlePost(peer: Peer, payload: Payload, ts: nat)
      modifies this, room
      ensures room.View() == Append(old(room.View()), peer, payload, ts)
      ensures var msg, to := NewMessage(old(room.View()), peer, payload, ts), if peer.Host? then Viewer else Host;
              && waiters == StillWaiting(old(waiters), to, msg)
              && responses == old(responses) + Answers(old(waiters), to, msg)
    {
      var msg, recipient := room.AppendPost(peer, payload, ts);
      Notify(recipient, msg);
    }
  }

  /** Nothing in the host queue is new to a waiting viewer: its poll came back empty. */
  ghost predicate NothingNew(host: seq<Message>, w: Waiter) { Filter(host, SeqAfter(w.since)) == [] }

  /** For a waiting viewer and the next host post: it is woken exactly when a poll would return something,
      and then with what that poll returns; otherwise its poll would still be empty. */
  lemma WakeAgreesWithPoll(r: Room, w: Waiter, payload: Payload, ts: nat)
    requires w.peer.Viewer? && NothingNew(r.host, w)
    ensures var r', msg := Append(r, Host, payload, ts), NewMessage(r, Host, payload, ts);
            if Woken(w, Viewer, msg) then Poll(r', Viewer, w.since) == PollResult([msg], msg.seqNo)
            else NothingNew(r'.host, w) && Poll(r', Viewer, w.since) == PollResult([], w.since)
  {
    hide Append, Filter, NewMessage;
    var r', msg, keep := Append(r, Host, payload, ts), NewMessage(r, Host, payload, ts), SeqAfter(w.since);
    AppendSplits(r, payload, ts);
    var kept := r'.host[..|r'.host| - 1];
    FilterSnoc(kept, msg, keep);
    FilterNothing(kept, r.host, keep);
  }

  /** A host post puts the new message behind messages that were there before. */
  lemma AppendSplits(r: Room, payload: Payload, ts: nat)
    ensures var q := Append(r, Host, payload, ts).host;
            && q != [] && q == q[..|q| - 1] + [NewMessage(r, Host, payload, ts)]
            && forall m :: m in q[..|q| - 1] ==> m in r.host
  {
    var q := Append(r, Host, payload, ts).host;
    if payload.IsOffer() && payload.To().Some? {
      var kept := Filter(Trim(r.host), NotTo(payload.To().value));
      assert q[..|q| - 1] == kept;
      forall m | m in kept
        ensures m in r.host
      {
        FilterIn(Trim(r.host), NotTo(payload.To().value), m);
      }
    }
  }

  lemma FilterNothing(a: seq<Message>, b: seq<Message>, keep: Message -> bool)
    requires (forall m :: m in a ==> m in b) && Filter(b, keep) == []
    ensures Filter(a, keep) == []
  {
    if Filter(a, keep) != [] {
      var m := Filter(a, keep)[0];
      FilterIn(a, keep, m);
      FilterIn(b, keep, m);
      assert false;
    }
  }

  // ---- Runs ----------------------------------------------------------------

  datatype Request = Get(id: nat, peer: Peer, since: Param, wait: Param) | Put(peer: Peer, payload: Payload) | Timeout(id: nat)

  datatype Held = Held(room: Room, clock: nat, log: seq<Message>, waiters: seq<Waiter>)

  ghost function Serve(o: Held, q: Request): Held {
    match q
    case Get(id, peer, since, wait) =>
      if Cursor(since).None? || Poll(o.room, peer, Cursor(since).value).messages != [] || WaitSeconds(wait) == 0 then o
      else o.(waiters := o.waiters + [Waiter(id, peer, Cursor(since).value, WaitSeconds(wait))])
    case Put(peer, payload) =>
      var msg := NewMessage(o.room, peer, payload, o.clock);
      Held(Append(o.room, peer, payload, o.clock), o.clock + 1, if peer.Host? then o.log + [msg] else o.log,
             StillWaiting(o.waiters, if peer.Host? then Viewer else Host, msg))
    case Timeout(id) => o.(waiters := Remove(o.waiters, id))
  }

  ghost function ServeAll(requests: seq<Request>): Held
    decreases |requests|
  {
    if requests == [] then Held(Room([], []), 0, [], [])
    else Serve(ServeAll(requests[..|requests| - 1]), requests[|requests| - 1])
  }

  ghost predicate WaitersUpToDate(o: Held) {
    && HostQueue(o.room.host, o.log)
    && forall w :: w in o.waiters && w.peer.Viewer? ==> NothingNew(o.room.host, w)
  }

  /** Who stays: everyone but the recipient's waiters whose cursor is below the message. */
  lemma {:induction false} StillWaitingIn(ws: seq<Waiter>, recipient: Peer, msg: Message, w: Waiter)
    ensures w in StillWaiting(ws, recipient, msg) <==> w in ws && (w.peer != recipient || msg.seqNo <= w.since)
  {
    if ws != [] {
      assert ws == [ws[0]] + ws[1..];
      StillWaitingIn(ws[1..], recipient, msg, w);
    }
  }

  /** Who is answered, and with what: each of the others gets the message and its number as the new cursor. */
  lemma {:induction false} AnswersIn(ws: seq<Waiter>, recipient: Peer, msg: Message, r: Response)
    ensures r in Answers(ws, recipient, msg) <==>
            exists w :: w in ws && w.peer == recipient && msg.seqNo > w.since
                        && r == Response(w.id, PollResult([msg], msg.seqNo))
  {
    if ws != [] {
      assert ws == [ws[0]] + ws[1..];
      AnswersIn(ws[1..], recipient, msg, r);
    }
  }

  lemma {:induction false} RemoveIn(ws: seq<Waiter>, id: nat, w: Waiter)
    ensures w in Remove(ws, id) ==> w in ws
  {
    if ws != [] {
      RemoveIn(ws[1..], id, w);
    }
  }

  lemma ServeKeepsWaiters(o: Held, q: Request)
    requires WaitersUpToDate(o)
    ensures WaitersUpToDate(Serve(o, q))
  {
    var o' := Serve(o, q);
    if q.Put? && q.peer.Host? {
      AppendHost(o.room, o.log, q.payload, o.clock);
    }
    forall w | w in o'.waiters && w.peer.Viewer?
      ensures NothingNew(o'.room.host, w)
    {
      match q {
        case Get(_, _, _, _) =>
        case Timeout(id) => RemoveIn(o.waiters, id, w);
        case Put(peer, payload) =>
          var msg := NewMessage(o.room, peer, payload, o.clock);
          StillWaitingIn(o.waiters, if peer.Host? then Viewer else Host, msg, w);
          if peer.Host? {
            WakeAgreesWithPoll(o.room, w, payload, o.clock);
          }
      }
    }
  }

  lemma {:induction false} WaitersStayUpToDate(requests: seq<Request>)
    ensures WaitersUpToDate(ServeAll(requests))
    decreases |requests|
  {
    if requests != [] {
      WaitersStayUpToDate(requests[..|requests| - 1]);
      ServeKeepsWaiters(ServeAll(requests[..|requests| - 1]), requests[|requests| - 1]);
    }
  }

  /** In every run, a viewer held in a long poll is answered by the next host post exactly as a poll
      made just after that post would be. */
  lemma LongPollAgreesWithPolling(requests: seq<Request>, w: Waiter, payload: Payload)
    requires w in ServeAll(requests).waiters && w.peer.Viewer?
    ensures var o := ServeAll(requests);
            var r', msg := Append(o.room, Host, payload, o.clock), NewMessage(o.room, Host, payload, o.clock);
            if Woken(w, Viewer, msg) then Poll(r', Viewer, w.since) == PollResult([msg], msg.seqNo)
            else Poll(r', Viewer, w.since) == PollResult([], w.since)
  {
    WaitersStayUpToDate(requests);
    var o := ServeAll(requests);
    WakeAgreesWithPoll(o.room, w, payload, o.clock);
  }
}
