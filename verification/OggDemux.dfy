/** The Ogg/Opus demuxer: pages in, Opus packets out (sections 5 and 6 of RFC 3533, section 3.1 of RFC 6716). */
module OggDemux {
  import opened Common

  const HEADER := 27
  const MAGIC: seq<Byte> := [0x4F, 0x67, 0x67, 0x53]
  const OPUS_HEAD: seq<Byte> := [0x4F, 0x70, 0x75, 0x73, 0x48, 0x65, 0x61, 0x64]
  const OPUS_TAGS: seq<Byte> := [0x4F, 0x70, 0x75, 0x73, 0x54, 0x61, 0x67, 0x73]

  /** Why reading stopped: only a stream that ends inside or before a page header ends without error. */
  datatype Outcome = EndOfStream | LostSync | TruncatedTable | TruncatedData

  datatype Demuxed = Demuxed(packets: seq<seq<Byte>>, outcome: Outcome)

  /** Packets completed so far, and the bytes of one that goes on. */
  datatype Walked = Walked(packets: seq<seq<Byte>>, partial: seq<Byte>)

  function Sum(table: seq<Byte>): nat { if table == [] then 0 else table[0] + Sum(table[1..]) }

  /** The lacing walk over one page's segment table and data. */
  function Walk(table: seq<Byte>, data: seq<Byte>, acc: seq<Byte>): Walked
    requires Sum(table) == |data|
  {
    if table == [] then Walked([], acc) else
    var v := table[0];
    var acc' := acc + data[..v];
    if v < 255 then
      var rest := Walk(table[1..], data[v..], []);
      Walked([acc'] + rest.packets, rest.partial)
    else Walk(table[1..], data[v..], acc')
  }

  /** What reading the rest of the stream hands over, given the bytes carried from earlier pages. */
  ghost function Demux(stream: seq<Byte>, partial: seq<Byte>): Demuxed
    decreases |stream|
  {
    if |stream| < HEADER then Demuxed([], EndOfStream)
    else if stream[..4] != MAGIC then Demuxed([], LostSync)
    else
      var n := stream[26];
      if |stream| < HEADER + n then Demuxed([], TruncatedTable) else
      var table := stream[HEADER..HEADER + n];
      if |stream| < HEADER + n + Sum(table) then Demuxed([], TruncatedData) else
      var end := HEADER + n + Sum(table);
      var page := Walk(table, stream[HEADER + n..end], partial);
      var rest := Demux(stream[end..], page.partial);
      Demuxed(page.packets + rest.packets, rest.outcome)
  }

  // ---- Packets -------------------------------------------------------------

  /** Playback time in microseconds, from the TOC byte. */
  function PacketDuration(pkt: seq<Byte>): nat
    requires pkt != []
  {
    var config: nat, code: nat := pkt[0] / 8, pkt[0] % 4;
    var frameUs: nat := if config < 12 then [10000, 20000, 40000, 60000][config % 4]
                   else if config < 16 then [10000, 20000][config % 2]
                   else [2500, 5000, 10000, 20000][config % 4];
    var frames: nat := if code == 1 || code == 2 then 2
                  else if code == 3 && |pkt| >= 2 then pkt[1] % 64
                  else 1;
    frameUs * frames
  }

  predicate IsHeader(pkt: seq<Byte>) { |pkt| >= 8 && (pkt[..8] == OPUS_HEAD || pkt[..8] == OPUS_TAGS) }

  predicate IsAudio(pkt: seq<Byte>) { pkt != [] && !IsHeader(pkt) && PacketDuration(pkt) > 0 }

  datatype Packet = Packet(data: seq<Byte>, durationUs: nat)

  /** What handlePacket emits for a run of packets. */
  function Emitted(packets: seq<seq<Byte>>): seq<Packet> {
    if packets == [] then []
    else (if IsAudio(packets[0]) then [Packet(packets[0], PacketDuration(packets[0]))] else []) + Emitted(packets[1..])
  }

  /** Only a code 3 packet that announces zero frames has no duration. */
  lemma DurationPositive(pkt: seq<Byte>)
    requires pkt != []
    ensures PacketDuration(pkt) > 0 <==> !(pkt[0] % 4 == 3 && |pkt| >= 2 && pkt[1] % 64 == 0)
  {
    var config := pkt[0] / 8;
    assert 0 <= config % 4 < 4 && 0 <= config % 2 < 2;
  }

  /** Frame sizes in microseconds by the configuration number of the TOC byte (Table 2 of RFC 6716). */
  const FRAME_SIZES: seq<nat> := [
    10000, 20000, 40000, 60000, 10000, 20000, 40000, 60000, 10000, 20000, 40000, 60000,
    10000, 20000, 10000, 20000,
    2500, 5000, 10000, 20000, 2500, 5000, 10000, 20000, 2500, 5000, 10000, 20000, 2500, 5000, 10000, 20000]

  /** A TOC byte holds configuration, stereo bit and frame count code (section 3.1 of RFC 6716): the duration is the
      configuration's frame size, once for code 0, twice for codes 1 and 2, as often as the next byte says for code 3. */
  lemma DurationTable(config: nat, stereo: nat, code: nat, rest: seq<Byte>)
    requires config < 32 && stereo < 2 && code < 4
    ensures PacketDuration([8 * config + 4 * stereo + code] + rest) ==
            FRAME_SIZES[config] * (match code
                                   case 0 => 1
                                   case 1 => 2
                                   case 2 => 2
                                   case _ => if rest == [] then 1 else rest[0] % 64)
  {
    var toc := 8 * config + 4 * stereo + code;
    assert toc / 8 == config && toc % 4 == code;
    FrameSize(config);
  }

  lemma FrameSize(config: nat)
    requires config < 32
    ensures config < 12 ==> FRAME_SIZES[config] == [10000, 20000, 40000, 60000][config % 4]
    ensures 12 <= config < 16 ==> FRAME_SIZES[config] == [10000, 20000][config % 2]
    ensures config >= 16 ==> FRAME_SIZES[config] == [2500, 5000, 10000, 20000][config % 4]
  {
  }

  /** A packet is emitted, whole and with its duration, iff it is not empty, does not start with "OpusHead" or "OpusTags",
      and lasts. */
  lemma EmittedExactly(pkt: seq<Byte>)
    ensures var head, tags := [0x4F, 0x70, 0x75, 0x73, 0x48, 0x65, 0x61, 0x64], [0x4F, 0x70, 0x75, 0x73, 0x54, 0x61, 0x67, 0x73];
            Emitted([pkt]) ==
            if pkt != [] && !(head <= pkt) && !(tags <= pkt) && PacketDuration(pkt) > 0
            then [Packet(pkt, PacketDuration(pkt))] else []
  {
    assert [pkt][1..] == [];
  }

  lemma {:induction false} EmittedSnoc(packets: seq<seq<Byte>>, pkt: seq<Byte>)
    ensures Emitted(packets + [pkt]) ==
            Emitted(packets) + (if IsAudio(pkt) then [Packet(pkt, PacketDuration(pkt))] else [])
  {
    if packets != [] {
      assert (packets + [pkt])[1..] == packets[1..] + [pkt];
      EmittedSnoc(packets[1..], pkt);
    }
  }

  method HandlePacket(pkt: seq<Byte>) returns (out: seq<Packet>)
    ensures out == if IsAudio(pkt) then [Packet(pkt, PacketDuration(pkt))] else []
  {
    if |pkt| == 0 {
      return [];
    }
    if |pkt| >= 8 {
      if pkt[..8] == OPUS_HEAD || pkt[..8] == OPUS_TAGS {
        return [];
      }
    }
    var dur := PacketDuration(pkt);
    if dur <= 0 {
      return [];
    }
    return [Packet(pkt, dur)];
  }

  // ---- The reading loop ----------------------------------------------------

  method SumTable(table: seq<Byte>) returns (n: nat)
    ensures n == Sum(table)
  {
    n := 0;
    for i := 0 to |table|
      invariant n + Sum(table[i..]) == Sum(table)
    {
      assert table[i..][1..] == table[i + 1..];
      n := n + table[i];
    }
  }

  /** The lacing loop has handed over `handed` and stands at segment i, byte pos, with acc carried. */
  ghost predicate Walking(table: seq<Byte>, data: seq<Byte>, all: Walked, handed: seq<seq<Byte>>, i: nat, pos: nat, acc: seq<Byte>) {
    && i <= |table| && pos <= |data| && Sum(table[i..]) == |data[pos..]|
    && var todo := Walk(table[i..], data[pos..], acc);
       all.packets == handed + todo.packets && all.partial == todo.partial
  }

  lemma WalkStart(table: seq<Byte>, data: seq<Byte>, partial: seq<Byte>)
    requires Sum(table) == |data|
    ensures Walking(table, data, Walk(table, data, partial), [], 0, 0, partial)
  {
    assert table[0..] == table && data[0..] == data;
  }

  lemma WalkUnfold(table: seq<Byte>, data: seq<Byte>, v: Byte, acc: seq<Byte>)
    requires Sum(table) == |data| && table != [] && table[0] == v
    ensures v <= |data| && Sum(table[1..]) == |data[v..]|
    ensures var next := acc + data[..v];
            Walk(table, data, acc) ==
              if v < 255 then
                var rest := Walk(table[1..], data[v..], []);
                Walked([next] + rest.packets, rest.partial)
              else Walk(table[1..], data[v..], next)
  {
  }

  lemma WalkTurn(table: seq<Byte>, data: seq<Byte>, all: Walked, handed: seq<seq<Byte>>, i: nat, pos: nat, acc: seq<Byte>)
    requires Walking(table, data, all, handed, i, pos, acc) && i < |table|
    ensures var v := table[i];
            && pos + v <= |data|
            && var next := acc + data[pos..pos + v];
               if v < 255 then Walking(table, data, all, handed + [next], i + 1, pos + v, [])
               else Walking(table, data, all, handed, i + 1, pos + v, next)
  {
    hide Walk, Sum;
    var v := table[i];
    WalkUnfold(table[i..], data[pos..], v, acc);
    assert table[i..][1..] == table[i + 1..];
    assert data[pos..][v..] == data[pos + v..] && data[pos..][..v] == data[pos..pos + v];
    if v < 255 {
      Assoc(handed, [acc + data[pos..pos + v]], Walk(table[i + 1..], data[pos + v..], []).packets);
    }
  }

  lemma WalkEnd(table: seq<Byte>, data: seq<Byte>, all: Walked, handed: seq<seq<Byte>>, pos: nat, acc: seq<Byte>)
    requires Walking(table, data, all, handed, |table|, pos, acc)
    ensures all == Walked(handed, acc)
  {
    assert table[|table|..] == [];
  }

  /** One page: append each segment to the accumulator, hand over at every lacing value below 255. */
  method WalkPage(table: seq<Byte>, data: seq<Byte>, partial: seq<Byte>)
    returns (handed: seq<seq<Byte>>, emitted: seq<Packet>, acc: seq<Byte>)
    requires Sum(table) == |data|
    ensures handed == Walk(table, data, partial).packets && acc == Walk(table, data, partial).partial
    ensures emitted == Emitted(handed)
  {
    handed, emitted, acc := [], [], partial;
    var pos: nat := 0;
    ghost var all := Walk(table, data, partial);
    WalkStart(table, data, partial);
    hide Walk, Walking, IsAudio;
    for i := 0 to |table|
      invariant Walking(table, data, all, handed, i, pos, acc)
      invariant emitted == Emitted(handed)
    {
      var v := table[i];
      WalkTurn(table, data, all, handed, i, pos, acc);
      acc := acc + data[pos..pos + v];
      pos := pos + v;
      if v < 255 {
        EmittedSnoc(handed, acc);
        var out := HandlePacket(acc);
        handed, emitted := handed + [acc], emitted + out;
        acc := [];
      }
    }
    WalkEnd(table, data, all, handed, pos, acc);
  }

  lemma {:induction false} EmittedAppend(a: seq<seq<Byte>>, b: seq<seq<Byte>>)
    ensures Emitted(a + b) == Emitted(a) + Emitted(b)
  {
    if a == [] {
      assert a + b == b;
    } else {
      assert (a + b)[1..] == a[1..] + b;
      EmittedAppend(a[1..], b);
    }
  }

  datatype PageRead = Stop(outcome: Outcome) | Segments(table: seq<Byte>, data: seq<Byte>)

  /** Reads one page: fixed header, segment table, data. */
  method ReadPage(rest: seq<Byte>) returns (r: PageRead)
    ensures r.Stop? ==> forall partial :: Demux(rest, partial) == Demuxed([], r.outcome)
    ensures r.Segments? ==>
      && Sum(r.table) == |r.data| && HEADER + |r.table| + |r.data| <= |rest|
      && forall partial, handed :: Continues(rest, r.table, r.data, partial, handed)
  {
    hide Walk, Sum;
    if |rest| < HEADER {
      return Stop(EndOfStream);
    }
    if rest[..4] != MAGIC {
      return Stop(LostSync);
    }
    var nseg := rest[26];
    if |rest| < HEADER + nseg {
      return Stop(TruncatedTable);
    }
    var segTable := rest[HEADER..HEADER + nseg];
    var dataLen := SumTable(segTable);
    if |rest| < HEADER + nseg + dataLen {
      return Stop(TruncatedData);
    }
    r := Segments(segTable, rest[HEADER + nseg..HEADER + nseg + dataLen]);
    forall partial, handed
      ensures Continues(rest, r.table, r.data, partial, handed)
    {
      PageStep(rest, partial, handed);
    }
  }

  /** Demuxing goes on behind a page with what the page's walk left over. */
  ghost predicate Continues(rest: seq<Byte>, table: seq<Byte>, data: seq<Byte>, partial: seq<Byte>, handed: seq<seq<Byte>>)
    requires Sum(table) == |data| && HEADER + |table| + |data| <= |rest|
  {
    var page := Walk(table, data, partial);
    var later := Demux(rest[HEADER + |table| + |data|..], page.partial);
    && handed + Demux(rest, partial).packets == (handed + page.packets) + later.packets
    && Demux(rest, partial).outcome == later.outcome
  }

  /** Reads pages until the stream ends or breaks. */
  method ReadPages(stream: seq<Byte>) returns (handed: seq<seq<Byte>>, emitted: seq<Packet>, outcome: Outcome)
    ensures Demuxed(handed, outcome) == Demux(stream, [])
    ensures emitted == Emitted(handed)
  {
    handed, emitted := [], [];
    var partial: seq<Byte> := [];
    var rest := stream;
    ghost var all := Demux(stream, []);
    while true
      invariant emitted == Emitted(handed)
      invariant all.packets == handed + Demux(rest, partial).packets && all.outcome == Demux(rest, partial).outcome
      decreases |rest|
    {
      var page := ReadPage(rest);
      if page.Stop? {
        return handed, emitted, page.outcome;
      }
      var packets, out, acc := WalkPage(page.table, page.data, partial);
      assert Continues(rest, page.table, page.data, partial, handed);
      EmittedAppend(handed, packets);
      handed, emitted, partial := handed + packets, emitted + out, acc;
      rest := rest[HEADER + |page.table| + |page.data|..];
    }
  }

  lemma DemuxUnfold(rest: seq<Byte>, partial: seq<Byte>, table: seq<Byte>, end: nat)
    requires |rest| >= HEADER && rest[..4] == MAGIC && |rest| >= HEADER + rest[26]
    requires table == rest[HEADER..HEADER + rest[26]] && end == HEADER + rest[26] + Sum(table) <= |rest|
    ensures var page := Walk(table, rest[HEADER + rest[26]..end], partial);
            var later := Demux(rest[end..], page.partial);
            Demux(rest, partial) == Demuxed(page.packets + later.packets, later.outcome)
  {
  }

  lemma PageStep(rest: seq<Byte>, partial: seq<Byte>, handed: seq<seq<Byte>>)
    requires |rest| >= HEADER && rest[..4] == MAGIC && |rest| >= HEADER + rest[26]
    requires |rest| >= HEADER + rest[26] + Sum(rest[HEADER..HEADER + rest[26]])
    ensures var table := rest[HEADER..HEADER + rest[26]];
            var end := HEADER + rest[26] + Sum(table);
            var page := Walk(table, rest[HEADER + rest[26]..end], partial);
            && handed + Demux(rest, partial).packets == (handed + page.packets) + Demux(rest[end..], page.partial).packets
            && Demux(rest, partial).outcome == Demux(rest[end..], page.partial).outcome
  {
    hide Walk, Sum, Demux;
    var table := rest[HEADER..HEADER + rest[26]];
    var end := HEADER + rest[26] + Sum(table);
    DemuxUnfold(rest, partial, table, end);
    var page := Walk(table, rest[HEADER + rest[26]..end], partial);
    Assoc(handed, page.packets, Demux(rest[end..], page.partial).packets);
  }
}

/** A reference muxer per RFC 3533 and the round trip through the demuxer. */
module OggRoundTrip {
  import opened Common
  import opened OggDemux

  /** Lacing: full segments of 255 bytes, then one shorter segment, empty when the length divides evenly. */
  function Lace(pkt: seq<Byte>): seq<seq<Byte>>
    decreases |pkt|
  {
    if |pkt| < 255 then [pkt] else [pkt[..255]] + Lace(pkt[255..])
  }

  function LaceAll(packets: seq<seq<Byte>>): seq<seq<Byte>> {
    if packets == [] then [] else Lace(packets[0]) + LaceAll(packets[1..])
  }

  /** The segment table: one length per segment. */
  function Lengths(segments: seq<seq<Byte>>): seq<Byte>
    requires forall i :: 0 <= i < |segments| ==> |segments[i]| <= 255
  {
    seq(|segments|, i requires 0 <= i < |segments| => |segments[i]|)
  }

  /** A page: "OggS", the 22 header bytes the demuxer skips, and up to 255 segments. */
  datatype Page = Page(skipped: seq<Byte>, segments: seq<seq<Byte>>) {
    predicate Fits() {
      |skipped| == 22 && |segments| <= 255 && forall i :: 0 <= i < |segments| ==> |segments[i]| <= 255
    }

    function Encode(): seq<Byte>
      requires Fits()
    {
      [0x4F, 0x67, 0x67, 0x53] + skipped + [|segments|] + Lengths(segments) + Flatten(segments)
    }
  }

  predicate AllFit(pages: seq<Page>) { forall i :: 0 <= i < |pages| ==> pages[i].Fits() }

  function Mux(pages: seq<Page>): seq<Byte>
    requires AllFit(pages)
  {
    if pages == [] then [] else pages[0].Encode() + Mux(pages[1..])
  }

  function SegmentsOf(pages: seq<Page>): seq<seq<Byte>> {
    if pages == [] then [] else pages[0].segments + SegmentsOf(pages[1..])
  }

  /** The walk on segments instead of a table and its data. */
  function Join(segments: seq<seq<Byte>>, acc: seq<Byte>): Walked {
    if segments == [] then Walked([], acc) else
    var acc' := acc + segments[0];
    if |segments[0]| < 255 then
      var rest := Join(segments[1..], []);
      Walked([acc'] + rest.packets, rest.partial)
    else Join(segments[1..], acc')
  }

  lemma {:induction false} WalkIsJoin(segments: seq<seq<Byte>>, acc: seq<Byte>)
    requires forall i :: 0 <= i < |segments| ==> |segments[i]| <= 255
    ensures Sum(Lengths(segments)) == |Flatten(segments)|
    ensures Walk(Lengths(segments), Flatten(segments), acc) == Join(segments, acc)
    decreases |segments|
  {
    if segments != [] {
      var s, rest := segments[0], segments[1..];
      assert Lengths(segments)[1..] == Lengths(rest);
      assert Flatten(segments)[..|s|] == s && Flatten(segments)[|s|..] == Flatten(rest);
      WalkIsJoin(rest, if |s| < 255 then [] else acc + s);
    }
  }

  lemma {:induction false} JoinAppend(a: seq<seq<Byte>>, b: seq<seq<Byte>>, acc: seq<Byte>)
    ensures var first := Join(a, acc);
            var second := Join(b, first.partial);
            Join(a + b, acc) == Walked(first.packets + second.packets, second.partial)
    decreases |a|
  {
    if a == [] {
      assert a + b == b;
    } else {
      assert (a + b)[1..] == a[1..] + b;
      JoinAppend(a[1..], b, if |a[0]| < 255 then [] else acc + a[0]);
    }
  }

  /** Joining a packet's own segments gives the packet back. */
  lemma {:induction false} JoinLace(pkt: seq<Byte>, acc: seq<Byte>)
    ensures Join(Lace(pkt), acc) == Walked([acc + pkt], [])
    decreases |pkt|
  {
    if |pkt| < 255 {
      assert Lace(pkt)[1..] == [];
    } else {
      assert Lace(pkt)[1..] == Lace(pkt[255..]);
      JoinLace(pkt[255..], acc + pkt[..255]);
      assert (acc + pkt[..255]) + pkt[255..] == acc + pkt;
    }
  }

  lemma {:induction false} JoinLaceAll(packets: seq<seq<Byte>>)
    ensures Join(LaceAll(packets), []) == Walked(packets, [])
  {
    if packets != [] {
      JoinLace(packets[0], []);
      JoinLaceAll(packets[1..]);
      JoinAppend(Lace(packets[0]), LaceAll(packets[1..]), []);
      assert [] + packets[0] == packets[0] && [packets[0]] + packets[1..] == packets;
    }
  }

  /** Segments of 255 bytes only complete nothing. */
  lemma {:induction false} JoinOpenTail(tail: seq<seq<Byte>>, acc: seq<Byte>)
    requires forall i :: 0 <= i < |tail| ==> |tail[i]| == 255
    ensures Join(tail, acc).packets == []
    decreases |tail|
  {
    if tail != [] {
      JoinOpenTail(tail[1..], acc + tail[0]);
    }
  }

  lemma DemuxPage(page: Page, rest: seq<Byte>, acc: seq<Byte>)
    requires page.Fits()
    ensures var w := Join(page.segments, acc);
            var d := Demux(rest, w.partial);
            Demux(page.Encode() + rest, acc) == Demuxed(w.packets + d.packets, d.outcome)
  {
    var b := page.Encode() + rest;
    var n, data := |page.segments|, Flatten(page.segments);
    WalkIsJoin(page.segments, acc);
    assert b[..4] == MAGIC && b[26] == n;
    assert b[HEADER..HEADER + n] == Lengths(page.segments);
    assert b[HEADER + n..HEADER + n + |data|] == data;
    assert b[HEADER + n + |data|..] == rest;
  }

  /** Page boundaries do not matter: the demuxer joins the pages' segments. */
  lemma {:induction false} DemuxPages(pages: seq<Page>, acc: seq<Byte>)
    requires AllFit(pages)
    ensures Demux(Mux(pages), acc) == Demuxed(Join(SegmentsOf(pages), acc).packets, EndOfStream)
    decreases |pages|
  {
    if pages != [] {
      var w := Join(pages[0].segments, acc);
      DemuxPage(pages[0], Mux(pages[1..]), acc);
      DemuxPages(pages[1..], w.partial);
      JoinAppend(pages[0].segments, SegmentsOf(pages[1..]), acc);
    }
  }

  /** For packets of any lengths, laced and cut into pages anywhere, followed by any unfinished packet:
      the demuxer hands over exactly the finished packets, in order. */
  lemma OggRoundTripExact(packets: seq<seq<Byte>>, tail: seq<seq<Byte>>, pages: seq<Page>)
    requires AllFit(pages)
    requires forall i :: 0 <= i < |tail| ==> |tail[i]| == 255
    requires SegmentsOf(pages) == LaceAll(packets) + tail
    ensures Demux(Mux(pages), []) == Demuxed(packets, EndOfStream)
  {
    DemuxPages(pages, []);
    JoinAppend(LaceAll(packets), tail, []);
    JoinLaceAll(packets);
    JoinOpenTail(tail, []);
    assert packets + [] == packets;
  }

  lemma NoPage(b: seq<Byte>, acc: seq<Byte>)
    requires !(|b| >= HEADER && b[..4] == MAGIC && |b| >= HEADER + b[26]
               && |b| >= HEADER + b[26] + Sum(b[HEADER..HEADER + b[26]]))
    ensures Demux(b, acc).packets == []
  {
  }

  lemma PageOfLonger(b: seq<Byte>, c: seq<Byte>, n: nat, end: nat)
    requires HEADER <= |b| && HEADER + n <= end <= |b|
    ensures var s := b + c;
            && s[..4] == b[..4] && s[26] == b[26] && s[HEADER..HEADER + n] == b[HEADER..HEADER + n]
            && s[HEADER + n..end] == b[HEADER + n..end] && s[end..] == b[end..] + c
  {
  }

  lemma SamePrefix<T>(first: seq<T>, x: seq<T>, y: seq<T>)
    requires x <= y
    ensures first + x <= first + y
  {
  }

  /** Cutting the stream short anywhere loses packets only at the end. */
  lemma {:induction false} CutStreamHandsOverPrefix(b: seq<Byte>, c: seq<Byte>, acc: seq<Byte>)
    ensures Demux(b, acc).packets <= Demux(b + c, acc).packets
    decreases |b|
  {
    hide Demux, Walk, Sum;
    if |b| >= HEADER && b[..4] == MAGIC && |b| >= HEADER + b[26]
       && |b| >= HEADER + b[26] + Sum(b[HEADER..HEADER + b[26]]) {
      var n := b[26];
      var table := b[HEADER..HEADER + n];
      var end := HEADER + n + Sum(table);
      PageOfLonger(b, c, n, end);
      DemuxUnfold(b, acc, table, end);
      DemuxUnfold(b + c, acc, table, end);
      var page := Walk(table, b[HEADER + n..end], acc);
      CutStreamHandsOverPrefix(b[end..], c, page.partial);
      SamePrefix(page.packets, Demux(b[end..], page.partial).packets, Demux(b[end..] + c, page.partial).packets);
    } else {
      NoPage(b, acc);
    }
  }

  // ---- How a broken stream ends --------------------------------------------

  /** Demuxing whole pages and then whatever follows them. */
  lemma {:induction false} DemuxPagesThen(pages: seq<Page>, rest: seq<Byte>, acc: seq<Byte>)
    requires AllFit(pages)
    ensures var w := Join(SegmentsOf(pages), acc);
            var d := Demux(rest, w.partial);
            Demux(Mux(pages) + rest, acc) == Demuxed(w.packets + d.packets, d.outcome)
    decreases |pages|
  {
    hide Demux, Join;
    if pages == [] {
      assert [] + rest == rest;
      NoSegments(acc);
    } else {
      var w, more := Join(pages[0].segments, acc), Mux(pages[1..]);
      var w2 := Join(SegmentsOf(pages[1..]), w.partial);
      Assoc(pages[0].Encode(), more, rest);
      DemuxPage(pages[0], more + rest, acc);
      DemuxPagesThen(pages[1..], rest, w.partial);
      JoinAppend(pages[0].segments, SegmentsOf(pages[1..]), acc);
      Assoc(w.packets, w2.packets, Demux(rest, w2.partial).packets);
    }
  }

  lemma NoSegments(acc: seq<Byte>)
    ensures Join([], acc) == Walked([], acc)
  {
  }

  lemma PageHeader(page: Page)
    requires page.Fits()
    ensures var e, n := page.Encode(), |page.segments|;
            && |e| == 27 + n + |Flatten(page.segments)| && e[26] == n && e[..4] == MAGIC
            && e[27..27 + n] == Lengths(page.segments)
  {
  }

  /** A stream cut inside a page, after k of its bytes, ends silently inside the 27-byte header, and with an error inside
      the segment table or the data. */
  lemma CutPage(page: Page, k: nat, acc: seq<Byte>)
    requires page.Fits() && k < |page.Encode()|
    ensures var d := Demux(page.Encode()[..k], acc);
            && d.packets == []
            && d.outcome == if k < 27 then EndOfStream else if k < 27 + |page.segments| then TruncatedTable else TruncatedData
  {
    hide Sum, Walk;
    var e, n := page.Encode(), |page.segments|;
    var b := e[..k];
    PageHeader(page);
    WalkIsJoin(page.segments, acc);
    if k >= 27 {
      assert b[..4] == e[..4] && b[26] == e[26];
      if k >= 27 + n {
        assert b[27..27 + n] == e[27..27 + n];
      }
    }
  }

  /** So whole pages, then a cut page, hand over the packets of the whole pages and end that way. */
  lemma CutStreamEnds(pages: seq<Page>, page: Page, k: nat)
    requires AllFit(pages) && page.Fits() && k < |page.Encode()|
    ensures Demux(Mux(pages) + page.Encode()[..k], []) ==
            Demuxed(Join(SegmentsOf(pages), []).packets,
                    if k < 27 then EndOfStream else if k < 27 + |page.segments| then TruncatedTable else TruncatedData)
  {
    DemuxPagesThen(pages, page.Encode()[..k], []);
    CutPage(page, k, Join(SegmentsOf(pages), []).partial);
  }

  /** And anything of a header's length that does not start with "OggS" is an error. */
  lemma LostSyncEnds(pages: seq<Page>, rest: seq<Byte>)
    requires AllFit(pages) && |rest| >= 27 && !([0x4F, 0x67, 0x67, 0x53] <= rest)
    ensures Demux(Mux(pages) + rest, []) == Demuxed(Join(SegmentsOf(pages), []).packets, LostSync)
  {
    DemuxPagesThen(pages, rest, []);
  }
}
