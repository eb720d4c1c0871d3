/** The signaling room: per-peer message queues with sequence numbers, offer resets, a cap and polling. */
module Signaling {
  import opened Common

  datatype Peer = Host | Viewer

  const MAX_QUEUE_LENGTH := 200

  /** A JSON payload as far as the room looks into it: absent and non-string fields are None. */
  datatype Payload = NotAnObject | Object(typ: Option<string>, to: Option<string>, viewerId: Option<string>) {
    predicate IsOffer() { Object? && typ == Some("offer") }

    /** The addressed viewer; an empty string does not count. */
    function To(): Option<string> { if Object? && to.Some? && to.value != "" then to else None }

    function From(): Option<string> { if Object? && viewerId.Some? && viewerId.value != "" then viewerId else None }
  }

  datatype Message = Message(seqNo: nat, ts: nat, payload: Payload)

  datatype Room = Room(host: seq<Message>, viewer: seq<Message>)

  // ---- Queues --------------------------------------------------------------

  function Filter(s: seq<Message>, keep: Message -> bool): (r: seq<Message>)
    ensures |r| <= |s|
  {
    if s == [] then []
    else if keep(s[0]) then [s[0]] + Filter(s[1..], keep)
    else Filter(s[1..], keep)
  }

  function NotTo(target: string): Message -> bool { (m: Message) => m.payload.To() != Some(target) }

  function NotFrom(target: string): Message -> bool { (m: Message) => m.payload.From() != Some(target) }

  function SeqAfter(since: int): Message -> bool { (m: Message) => m.seqNo > since }

  /** How many messages the cap drops from the front before a post. */
  function Excess(q: seq<Message>): (k: nat)
    ensures k <= |q|
  {
    if |q| >= MAX_QUEUE_LENGTH then |q| - MAX_QUEUE_LENGTH + 1 else 0
  }

  function Trim(q: seq<Message>): (r: seq<Message>)
    ensures |r| < MAX_QUEUE_LENGTH
  {
    q[Excess(q)..]
  }

  function NextSeq(q: seq<Message>): nat { if q == [] then 0 else q[|q| - 1].seqNo + 1 }

  /** The message a post by `peer` is stored as. */
  function NewMessage(r: Room, peer: Peer, payload: Payload, ts: nat): Message {
    Message(NextSeq(Trim(if peer.Host? then r.host else r.viewer)), ts, payload)
  }

  function Append(r: Room, peer: Peer, payload: Payload, ts: nat): Room {
    var msg := NewMessage(r, peer, payload, ts);
    if peer.Viewer? then r.(viewer := Trim(r.viewer) + [msg])
    else if !payload.IsOffer() then r.(host := Trim(r.host) + [msg])
    else if payload.To().None? then Room([msg], [])
    else
      var target := payload.To().value;
      Room(Filter(Trim(r.host), NotTo(target)) + [msg], Filter(r.viewer, NotFrom(target)))
  }

  datatype PollResult = PollResult(messages: seq<Message>, nextSince: int)

  function PollQueue(q: seq<Message>, since: int): PollResult {
    var messages := Filter(q, SeqAfter(since));
    PollResult(messages, if messages == [] then since else messages[|messages| - 1].seqNo)
  }

  function Poll(r: Room, peer: Peer, since: int): PollResult {
    PollQueue(if peer.Host? then r.viewer else r.host, since)
  }

  /** The stored state, changed step by step as append does it. */
  class RoomState {
    var hostQueue: seq<Message>
    var viewerQueue: seq<Message>

    ghost function View(): Room
      reads this
    {
      Room(hostQueue, viewerQueue)
    }

    constructor ()
      ensures View() == Room([], [])
    {
      hostQueue, viewerQueue := [], [];
    }

    method FilterQueue(q: seq<Message>, keep: Message -> bool) returns (r: seq<Message>)
      ensures r == Filter(q, keep)
    {
      r := [];
      var i := |q|;
      while i > 0
        invariant 0 <= i <= |q|
        invariant r == Filter(q[i..], keep)
      {
        i := i - 1;
        assert q[i..][1..] == q[i + 1..];
        if keep(q[i]) {
          r := [q[i]] + r;
        }
      }
      assert q[0..] == q;
    }

    method AppendPost(peer: Peer, payload: Payload, ts: nat) returns (msg: Message, recipient: Peer)
      modifies this
      ensures View() == Append(old(View()), peer, payload, ts)
      ensures msg == NewMessage(old(View()), peer, payload, ts)
      ensures recipient == if peer.Host? then Viewer else Host
    {
      var queue := if peer.Host? then hostQueue else viewerQueue;
      if |queue| >= MAX_QUEUE_LENGTH {
        queue := queue[|queue| - MAX_QUEUE_LENGTH + 1..];
      }
      assert queue == Trim(if peer.Host? then hostQueue else viewerQueue);
      msg := Message(if |queue| > 0 then queue[|queue| - 1].seqNo + 1 else 0, ts, payload);
      assert msg == NewMessage(old(View()), peer, payload, ts);
      if peer.Host? && payload.IsOffer() {
        var target := payload.To();
        if target.Some? {
          var kept := FilterQueue(queue, NotTo(target.value));
          hostQueue := kept + [msg];
          kept := FilterQueue(viewerQueue, NotFrom(target.value));
          viewerQueue := kept;
        } else {
          hostQueue := [msg];
          viewerQueue := [];
        }
      } else {
        queue := queue + [msg];
        if peer.Host? {
          hostQueue := queue;
        } else {
          viewerQueue := queue;
        }
      }
      recipient := if peer.Host? then Viewer else Host;
    }
  }
}
