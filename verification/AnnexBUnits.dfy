/** What the splitter promises about whole streams: chunking, bytes, pictures. */
module AnnexBUnits {
  import opened Common
  import opened AnnexB

  // ---- Chunk independence --------------------------------------------------

  /** Units returned by pushing the chunks in turn onto a buffer, then flushing. */
  ghost function PushAllThenFlush(buf: seq<Byte>, chunks: seq<seq<Byte>>): seq<AccessUnit>
    decreases |chunks|
  {
    if chunks == [] then AllUnits(buf)
    else Units(buf + chunks[0]) + PushAllThenFlush(Rest(buf + chunks[0]), chunks[1..])
  }

  lemma RestIsSettled(b: seq<Byte>)
    ensures Units(Rest(b)) == [] && Rest(Rest(b)) == Rest(b)
  {
    UnitsAppend(b, []);
    assert b + [] == b && Rest(b) + [] == Rest(b);
    assert |Units(b)| == |Units(b)| + |Units(Rest(b))|;
  }

  lemma {:induction false} AllUnitsAppend(b: seq<Byte>, c: seq<Byte>)
    ensures AllUnits(b + c) == Units(b) + AllUnits(Rest(b) + c)
  {
    UnitsAppend(b, c);
  }

  /** Any chunking of a stream gives the units of one Push of the whole stream and a Flush. */
  lemma {:induction false} PushAllIsOnePush(buf: seq<Byte>, chunks: seq<seq<Byte>>)
    ensures PushAllThenFlush(buf, chunks) == AllUnits(buf + Flatten(chunks))
    decreases |chunks|
  {
    if chunks == [] {
      assert buf + [] == buf;
    } else {
      var b, c := buf + chunks[0], Flatten(chunks[1..]);
      PushAllIsOnePush(Rest(b), chunks[1..]);
      AllUnitsAppend(b, c);
      Assoc(buf, chunks[0], c);
    }
  }

  lemma ChunkIndependence(chunks: seq<seq<Byte>>, chunks': seq<seq<Byte>>)
    requires Flatten(chunks) == Flatten(chunks')
    ensures PushAllThenFlush([], chunks) == PushAllThenFlush([], chunks')
  {
    PushAllIsOnePush([], chunks);
    PushAllIsOnePush([], chunks');
  }

  lemma NoStream()
    ensures Units([]) == [] && Rest([]) == [] && Flatten<Byte>([]) == []
  {
    assert Nals([]) == [] && FirstCut([]).NoCut?;
  }

  /** The encoder's read loop: push each chunk as it arrives, flush at end of stream. */
  method SplitStream(chunks: seq<seq<Byte>>) returns (units: seq<AccessUnit>)
    ensures units == AllUnits(Flatten(chunks))
  {
    hide Units, Rest, Tail, Nals, Flatten;
    var s := new AnnexBSplitter();
    NoStream();
    units := [];
    ghost var stream := [];
    for i := 0 to |chunks|
      invariant stream == Flatten(chunks[..i])
      invariant units == Units(stream) && s.buf == Rest(stream)
    {
      var aus := s.Push(chunks[i]);
      UnitsAppend(stream, chunks[i]);
      FlattenSnoc(chunks[..i], chunks[i]);
      assert chunks[..i + 1] == chunks[..i] + [chunks[i]];
      units := units + aus;
      stream := stream + chunks[i];
    }
    RestIsSettled(stream);
    assert chunks[..|chunks|] == chunks;
    var last := s.Flush();
    units := units + last;
  }

  // ---- Meaning of a cut ----------------------------------------------------

  /** ns[k] opens a picture although a slice came before it. */
  ghost predicate OpensAfterSlice(ns: seq<Nal>, k: nat, seen: bool) {
    k < |ns| && ns[k].OpensPicture() && (seen || HasSlice(ns[..k]))
  }

  ghost predicate NoCutBefore(ns: seq<Nal>, k: nat, seen: bool) {
    forall j :: 0 <= j < k ==> !OpensAfterSlice(ns, j, seen)
  }

  lemma SliceCons(ns: seq<Nal>, k: nat)
    requires 0 < k <= |ns|
    ensures HasSlice(ns[..k]) <==> ns[0].IsVCL() || HasSlice(ns[1..][..k - 1])
    ensures HasIDR(ns[..k]) <==> ns[0].nalType == NAL_IDR || HasIDR(ns[1..][..k - 1])
  {
    assert ns[..k] == [ns[0]] + ns[1..][..k - 1];
    assert ns[0] in ns[..k];
    assert forall n :: n in ns[1..][..k - 1] ==> n in ns[..k];
  }

  /** The scan stops at the first NAL unit that opens a picture after a slice, and nowhere else. */
  lemma {:induction false} FindCutMeaning(ns: seq<Nal>, seen: bool, idr: bool) returns (k: nat)
    ensures k <= |ns| && NoCutBefore(ns, k, seen)
    ensures FindCut(ns, seen, idr) ==
            if k == |ns| then NoCut else Cut(ns[k].start, idr || HasIDR(ns[..k]))
    ensures k < |ns| ==> OpensAfterSlice(ns, k, seen)
  {
    if ns == [] || (seen && ns[0].OpensPicture()) {
      k := 0;
    } else {
      var j := FindCutMeaning(ns[1..], seen || ns[0].IsVCL(), idr || ns[0].nalType == NAL_IDR);
      k := j + 1;
      forall i | 1 <= i <= k
        ensures i < |ns| ==> (OpensAfterSlice(ns, i, seen) <==> OpensAfterSlice(ns[1..], i - 1, seen || ns[0].IsVCL()))
      {
        SliceCons(ns, i);
      }
      SliceCons(ns, k);
    }
  }

  // ---- Re-parsing a unit's own bytes ---------------------------------------

  lemma ScanTrunc(b: seq<Byte>, start: nat, e: nat)
    requires Boundary(b, start) && start < |b|
    requires var end := NextCode(b, start + StartCodeLen(b, start));
             end <= e <= |b| && (end < e ==> end + StartCodeLen(b, end) <= e)
    ensures var payload := start + StartCodeLen(b, start);
            var end := NextCode(b, payload);
            && StartCodeLen(b[..e], start) == StartCodeLen(b, start)
            && NextCode(b[..e], payload) == end
            && (payload < end ==> NalAt(b[..e], start, payload, end) == NalAt(b, start, payload, end))
  {
    var payload := start + StartCodeLen(b, start);
    var end := NextCode(b, payload);
    assert b == b[..e] + b[e..];
    NextCodeFirst(b, payload);
    forall i | payload <= i < end
      ensures StartCodeLen(b[..e], i) == 0
    {
      CodeStable(b[..e], b[e..], i);
    }
    NextCodeUnique(b[..e], payload, end);
  }

  lemma TakeCons<T>(x: T, s: seq<T>, j: nat)
    requires j <= |s|
    ensures ([x] + s)[..j + 1] == [x] + s[..j]
  {
  }

  lemma TruncStep(b: seq<Byte>, start: nat, j: nat)
    requires Boundary(b, start) && start < |b|
    requires j < |NalsFrom(b, NextCode(b, start + StartCodeLen(b, start)))|
    ensures var payload := start + StartCodeLen(b, start);
            var end := NextCode(b, payload);
            var e := NalsFrom(b, end)[j].start;
            && e <= |b| && Boundary(b[..e], start) && Boundary(b[..e], end)
            && NalsFrom(b[..e], start) ==
               if payload < end then [NalAt(b, start, payload, end)] + NalsFrom(b[..e], end) else NalsFrom(b[..e], end)
  {
    var payload := start + StartCodeLen(b, start);
    var end := NextCode(b, payload);
    CodeBeforeLater(b, end, j);
    var e := NalsFrom(b, end)[j].start;
    ScanTrunc(b, start, e);
    NalsUnfold(b[..e], start, payload, end);
  }

  lemma TruncNone(b: seq<Byte>, start: nat)
    requires Boundary(b, start)
    ensures Boundary(b[..start], start) && NalsFrom(b[..start], start) == []
  {
    NalsAtEnd(b[..start]);
  }

  /** Cutting the buffer where a NAL unit starts leaves the units before it as they were. */
  lemma {:induction false} NalsTrunc(b: seq<Byte>, start: nat, k: nat)
    requires Boundary(b, start) && k < |NalsFrom(b, start)|
    ensures var ns := NalsFrom(b, start);
            && start <= ns[k].start <= |b| && Boundary(b[..ns[k].start], start)
            && NalsFrom(b[..ns[k].start], start) == ns[..k]
    decreases |b| - start
  {
    hide StartCodeLen, NextCode, NalAt, NalsFrom, Boundary;
    CodeBeforeLater(b, start, k);
    TruncNone(b, start);
    var payload := start + StartCodeLen(b, start);
    var end := NextCode(b, payload);
    CodeBoundary(b, payload);
    NalsUnfold(b, start, payload, end);
    if payload == end {
      NalsTrunc(b, end, k);
      TruncStep(b, start, k);
    } else if k > 0 {
      NalsTrunc(b, end, k - 1);
      TruncStep(b, start, k - 1);
      TruncCons(b, start, payload, end, k - 1);
    } else {
      NalAtSpan(b, start, payload, end);
    }
  }

  lemma CodeBoundary(b: seq<Byte>, from: nat)
    requires from <= |b|
    ensures Boundary(b, NextCode(b, from))
  {
  }

  lemma TruncCons(b: seq<Byte>, start: nat, payload: nat, end: nat, j: nat)
    requires Boundary(b, start) && Boundary(b, end) && payload < end && j < |NalsFrom(b, end)|
    requires NalsFrom(b, start) == [NalAt(b, start, payload, end)] + NalsFrom(b, end)
    requires var e := NalsFrom(b, end)[j].start;
             && e <= |b| && Boundary(b[..e], start) && Boundary(b[..e], end)
             && NalsFrom(b[..e], start) == [NalAt(b, start, payload, end)] + NalsFrom(b[..e], end)
             && NalsFrom(b[..e], end) == NalsFrom(b, end)[..j]
    ensures var e := NalsFrom(b, end)[j].start;
            NalsFrom(b, start)[j + 1].start == e && NalsFrom(b[..e], start) == NalsFrom(b, start)[..j + 1]
  {
    TakeCons(NalAt(b, start, payload, end), NalsFrom(b, end), j);
  }

  lemma {:induction false} CodeBeforeLater(b: seq<Byte>, start: nat, k: nat)
    requires Boundary(b, start) && k < |NalsFrom(b, start)|
    ensures var e := NalsFrom(b, start)[k].start;
            start == e < |b| || (start < e < |b| && start + StartCodeLen(b, start) <= e)
  {
    NalsFromOrdered(b, start);
    NalsFromOrdered(b, NextCode(b, start + StartCodeLen(b, start)));
  }

  lemma ShiftKeepsShape(ns: seq<Nal>, off: nat)
    ensures HasIDR(Shifted(ns, off)) == HasIDR(ns)
    ensures HasSlice(Shifted(ns, off)) == HasSlice(ns)
    ensures NoCutBefore(Shifted(ns, off), |ns|, false) ==> NoCutBefore(ns, |ns|, false)
  {
    HasIDRShift(ns, off);
    HasSliceShift(ns, off);
    forall j | 0 <= j < |ns| && OpensAfterSlice(ns, j, false)
      ensures OpensAfterSlice(Shifted(ns, off), j, false)
    {
      assert Shifted(ns, off)[..j] == Shifted(ns[..j], off);
      HasSliceShift(ns[..j], off);
    }
  }

  lemma HasSliceShift(ns: seq<Nal>, off: nat)
    ensures HasSlice(Shifted(ns, off)) == HasSlice(ns)
  {
    forall i | 0 <= i < |ns| && ns[i].IsVCL()
      ensures HasSlice(Shifted(ns, off))
    {
      assert Shifted(ns, off)[i] in Shifted(ns, off);
    }
    forall i | 0 <= i < |ns| && Shifted(ns, off)[i].IsVCL()
      ensures HasSlice(ns)
    {
      assert ns[i] in ns;
    }
  }

  /** Parsed on its own, the unit starts at its first NAL, holds one picture at most, and is marked by its IDR slice. */
  ghost predicate UnitShape(u: AccessUnit) {
    var ns := Nals(u.data);
    && ns != [] && ns[0].start == 0
    && NoCutBefore(ns, |ns|, false)
    && (u.isKeyframe <==> HasIDR(ns))
  }

  lemma FirstUnitNals(b: seq<Byte>, k: nat)
    requires 0 < k < |Nals(b)|
    ensures var first, at := Nals(b)[0].start, Nals(b)[k].start;
            first <= at <= |b| && Shifted(Nals(b[first..at]), first) == Nals(b)[..k]
  {
    var ns := Nals(b);
    NalsFromOrdered(b, NextCode(b, 0));
    var first, at := ns[0].start, ns[k].start;
    NalsTrunc(b, NextCode(b, 0), k);
    NextCodeTrunc(b, at);
    ReparseFrom(b[..at], 0);
    assert b[..at][first..] == b[first..at];
  }

  lemma NextCodeTrunc(b: seq<Byte>, e: nat)
    requires NextCode(b, 0) <= e <= |b| && Boundary(b[..e], NextCode(b, 0))
    ensures NextCode(b[..e], 0) == NextCode(b, 0)
  {
    NextCodeFirst(b, 0);
    assert b == b[..e] + b[e..];
    forall i | 0 <= i < NextCode(b, 0)
      ensures StartCodeLen(b[..e], i) == 0
    {
      CodeStable(b[..e], b[e..], i);
    }
    NextCodeUnique(b[..e], 0, NextCode(b, 0));
  }

  /** The first unit cut from b, and the NAL unit the remaining bytes start with. */
  lemma FirstUnit(b: seq<Byte>) returns (k: nat)
    requires FirstCut(b).Cut?
    ensures 0 < k < |Nals(b)| && FirstCut(b).at == Nals(b)[k].start && OpensAfterSlice(Nals(b), k, false)
    ensures var u := AccessUnit(b[Nals(b)[0].start..FirstCut(b).at], FirstCut(b).idr);
            && UnitShape(u) && HasSlice(Nals(u.data))
            && Nals(u.data)[0].OpensPicture() == Nals(b)[0].OpensPicture()
    ensures var rest := Nals(b[FirstCut(b).at..]);
            rest != [] && rest[0].start == 0 && rest[0].OpensPicture()
  {
    var ns := Nals(b);
    k := FindCutMeaning(ns, false, false);
    assert ns[..0] == [];
    var first, at := ns[0].start, ns[k].start;
    FirstUnitNals(b, k);
    var own := Nals(b[first..at]);
    ShiftKeepsShape(own, first);
    assert Shifted(own, first)[0] == own[0].Moved(first) == ns[0];
    assert NoCutBefore(ns[..k], k, false) by {
      forall j | 0 <= j < k && OpensAfterSlice(ns[..k], j, false)
        ensures OpensAfterSlice(ns, j, false)
      {
        assert ns[..k][..j] == ns[..j];
      }
    }
    ReparseFrom(b, k);
    var rest := Nals(b[at..]);
    assert Shifted(rest, at)[0] == rest[0].Moved(at) == ns[k];
  }

  lemma TailShape(b: seq<Byte>)
    requires FirstCut(b).NoCut? && Nals(b) != []
    ensures var u := Tail(b)[0];
            UnitShape(u) && Nals(u.data)[0].OpensPicture() == Nals(b)[0].OpensPicture()
  {
    var ns := Nals(b);
    var first := ns[0].start;
    var k := FindCutMeaning(ns, false, false);
    ReparseFrom(b, 0);
    var own := Nals(b[first..]);
    ShiftKeepsShape(own, first);
    assert ns[0..] == ns;
    assert Shifted(own, first)[0] == own[0].Moved(first) == ns[0];
  }

  /** Every unit holds at most one picture; every unit but the last holds a slice; every unit but
      the first begins with the NAL unit that opened its picture. */
  ghost predicate UnitsShape(units: seq<AccessUnit>) {
    && (forall i :: 0 <= i < |units| ==> UnitShape(units[i]))
    && (forall i :: 0 <= i < |units| - 1 ==> HasSlice(Nals(units[i].data)))
    && (forall i :: 0 < i < |units| ==> Nals(units[i].data)[0].OpensPicture())
  }

  lemma ShapeCons(u: AccessUnit, units: seq<AccessUnit>)
    requires UnitShape(u) && HasSlice(Nals(u.data)) && UnitsShape(units)
    requires units != [] ==> Nals(units[0].data)[0].OpensPicture()
    ensures UnitsShape([u] + units)
  {
    var all := [u] + units;
    assert forall i :: 0 < i < |all| ==> all[i] == units[i - 1];
  }

  lemma {:induction false} AllUnitsShape(b: seq<Byte>)
    ensures UnitsShape(AllUnits(b))
    ensures |Units(b)| < |AllUnits(b)| <==> Nals(b) != []
    ensures Nals(b) != [] ==> Nals(AllUnits(b)[0].data)[0].OpensPicture() == Nals(b)[0].OpensPicture()
    decreases |b|
  {
    if FirstCut(b).Cut? {
      var at := FirstCut(b).at;
      var k := FirstUnit(b);
      AllUnitsShape(b[at..]);
      AllUnitsCons(b);
      ShapeCons(AllUnits(b)[0], AllUnits(b[at..]));
    } else if Nals(b) != [] {
      TailShape(b);
    }
  }

  lemma AllUnitsCons(b: seq<Byte>)
    requires FirstCut(b).Cut?
    ensures var u := AccessUnit(b[Nals(b)[0].start..FirstCut(b).at], FirstCut(b).idr);
            AllUnits(b) == [u] + AllUnits(b[FirstCut(b).at..])
  {
  }

  ghost function Bytes(units: seq<AccessUnit>): seq<Byte> {
    if units == [] then [] else units[0].data + Bytes(units[1..])
  }

  lemma RestStartsAtNal(b: seq<Byte>)
    requires FirstCut(b).Cut?
    ensures var rest := Nals(b[FirstCut(b).at..]); rest != [] && rest[0].start == 0
  {
    var k := FirstUnit(b);
  }

  lemma BytesCons(u: AccessUnit, units: seq<AccessUnit>)
    ensures Bytes([u] + units) == u.data + Bytes(units)
  {
    assert ([u] + units)[1..] == units;
  }

  lemma TailBytes(b: seq<Byte>)
    requires FirstCut(b).NoCut?
    ensures AllUnits(b) == Tail(b) && (Nals(b) == [] ==> Tail(b) == [])
    ensures Nals(b) != [] ==> Nals(b)[0].start <= |b| && Bytes(Tail(b)) == b[Nals(b)[0].start..]
  {
    NalsFromOrdered(b, NextCode(b, 0));
    if Nals(b) != [] {
      assert Tail(b)[1..] == [];
    }
  }

  /** No byte is lost, repeated or moved from the first non-empty NAL's start code on. */
  lemma {:induction false} BytesConserved(b: seq<Byte>)
    ensures Nals(b) == [] ==> AllUnits(b) == []
    ensures Nals(b) != [] ==>
      Nals(b)[0].start <= |b| && Bytes(AllUnits(b)) == b[Nals(b)[0].start..]
    decreases |b|
  {
    if FirstCut(b).Cut? {
      var first, at := Nals(b)[0].start, FirstCut(b).at;
      RestStartsAtNal(b);
      BytesConserved(b[at..]);
      AllUnitsCons(b);
      BytesCons(AllUnits(b)[0], AllUnits(b[at..]));
      SliceJoin(b, first, at);
    } else {
      TailBytes(b);
    }
  }
}
