/** The browser's side: socket frames and poll responses in any mix, each message handed on once. */
module SignalingClient {
  import opened Common
  import opened Signaling
  import opened SignalingRuns

  /** Frames that exceed every earlier one, and the floor. */
  ghost function Records(frames: seq<Message>, floor: int): seq<Message> {
    if frames == [] then []
    else if frames[0].seqNo <= floor then Records(frames[1..], floor)
    else [frames[0]] + Records(frames[1..], frames[0].seqNo)
  }

  ghost function Highest(frames: seq<Message>, floor: int): int {
    if frames == [] then floor
    else Highest(frames[1..], if frames[0].seqNo <= floor then floor else frames[0].seqNo)
  }

  lemma {:induction false} RecordsAppend(a: seq<Message>, b: seq<Message>, floor: int)
    ensures Records(a + b, floor) == Records(a, floor) + Records(b, Highest(a, floor))
    ensures Highest(a + b, floor) == Highest(b, Highest(a, floor))
  {
    if a == [] {
      assert a + b == b;
    } else {
      assert (a + b)[1..] == a[1..] + b;
      RecordsAppend(a[1..], b, if a[0].seqNo <= floor then floor else a[0].seqNo);
    }
  }

  /** What is handed on has strictly increasing sequence numbers, all of them received, whatever arrived. */
  lemma {:induction false} RecordsIncrease(frames: seq<Message>, floor: int)
    ensures forall m :: m in Records(frames, floor) ==> m.seqNo > floor && m in frames
    ensures Sorted(Records(frames, floor))
  {
    if frames != [] {
      var first, rest := frames[0], frames[1..];
      assert frames == [first] + rest;
      if first.seqNo <= floor {
        RecordsIncrease(rest, floor);
        assert Records(frames, floor) == Records(rest, floor);
      } else {
        RecordsIncrease(rest, first.seqNo);
        var r := Records(rest, first.seqNo);
        assert Records(frames, floor) == [first] + r;
        assert forall j :: 0 <= j < |r| ==> r[j] in r;
      }
    }
  }

  /** A frame is skipped only when its number, or a higher one, came before. */
  lemma {:induction false} NothingNewIsDropped(frames: seq<Message>, floor: int, i: nat)
    requires i < |frames| && frames[i].seqNo > floor
    requires forall j :: 0 <= j < i ==> frames[j].seqNo < frames[i].seqNo
    ensures frames[i] in Records(frames, floor)
  {
    if i > 0 {
      NothingNewIsDropped(frames[1..], if frames[0].seqNo <= floor then floor else frames[0].seqNo, i - 1);
    }
  }

  lemma {:induction false} SortedAreRecords(frames: seq<Message>, floor: int)
    requires Sorted(frames) && (frames != [] ==> frames[0].seqNo > floor)
    ensures Records(frames, floor) == frames
  {
    if frames != [] {
      assert frames == [frames[0]] + frames[1..];
      SortedAreRecords(frames[1..], frames[0].seqNo);
    }
  }

  /** A browser that only polls hands on everything its polls returned. */
  lemma PollingBrowserHandsOnAll(ops: seq<Op>)
    ensures Records(Execute(ops).received, -1) == Execute(ops).received
  {
    PollerDelivery(ops);
    SortedAreRecords(Execute(ops).received, -1);
  }

  /** How one more frame moves the cursor. */
  lemma CursorStep(frames: seq<Message>, frame: Message, seen: int, cursor: int)
    ensures var before := Highest(Records(frames, seen), cursor);
            Highest(Records(frames + [frame], seen), cursor) ==
            if frame.seqNo > Highest(frames, seen) && frame.seqNo >= before then frame.seqNo else before
  {
    RecordsAppend(frames, [frame], seen);
    RecordsAppend(Records(frames, seen), Records([frame], Highest(frames, seen)), cursor);
    assert [frame][1..] == [];
  }

  lemma {:induction false} HighestBelow(frames: seq<Message>, floor: int)
    requires forall m :: m in frames ==> m.seqNo <= floor
    ensures Highest(frames, floor) == floor
  {
    if frames != [] {
      HighestBelow(frames[1..], floor);
    }
  }

  /** The cursor a browser ends up with after a response of the room's poll is the one in the response. */
  lemma CursorIsTaken(r: Room, since: int, seen: int)
    requires Sorted(r.host)
    ensures var p := Poll(r, Viewer, since); Highest(Records(p.messages, seen), p.nextSince) == p.nextSince
  {
    var p := Poll(r, Viewer, since);
    RecordsIncrease(p.messages, seen);
    FilterSorted(r.host, SeqAfter(since));
    HighestBelow(Records(p.messages, seen), p.nextSince);
  }

  class Client {
    var since: int
    var maxSeqSeen: int
    var handed: seq<Message>
    ghost var frames: seq<Message>

    ghost predicate Valid()
      reads this
    {
      maxSeqSeen == Highest(frames, -1) && handed == Records(frames, -1)
    }

    constructor ()
      ensures Valid() && frames == [] && since == -1
    {
      since, maxSeqSeen, handed, frames := -1, -1, [], [];
    }

    method DeliverFrame(frame: Message)
      requires Valid()
      modifies this
      ensures Valid() && frames == old(frames) + [frame]
      ensures since == if frame.seqNo > old(maxSeqSeen) && frame.seqNo >= old(since) then frame.seqNo else old(since)
    {
      RecordsAppend(frames, [frame], -1);
      frames := frames + [frame];
      if frame.seqNo <= maxSeqSeen {
        return;
      }
      maxSeqSeen := frame.seqNo;
      if frame.seqNo >= since {
        since := frame.seqNo;
      }
      handed := handed + [frame];
    }

    /** A poll response: the cursor is taken over, then each message is delivered. */
    method PollResponse(r: PollResult)
      requires Valid()
      modifies this
      ensures Valid() && frames == old(frames) + r.messages
      ensures since == Highest(Records(r.messages, old(maxSeqSeen)), r.nextSince)
    {
      since := r.nextSince;
      for i := 0 to |r.messages|
        invariant Valid() && frames == old(frames) + r.messages[..i]
        invariant since == Highest(Records(r.messages[..i], old(maxSeqSeen)), r.nextSince)
      {
        assert r.messages[..i + 1] == r.messages[..i] + [r.messages[i]];
        RecordsAppend(old(frames), r.messages[..i], -1);
        CursorStep(r.messages[..i], r.messages[i], old(maxSeqSeen), r.nextSince);
        DeliverFrame(r.messages[i]);
      }
      assert r.messages[..|r.messages|] == r.messages;
    }
  }
}
