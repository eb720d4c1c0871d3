/** The streaming H.264 Annex-B splitter: byte chunks in, access units out. */
module AnnexB {
  import opened Common

  const NAL_NON_IDR := 1
  const NAL_IDR := 5
  const NAL_AUD := 9

  /** One NAL unit, located by offsets into the buffer it was parsed from (start code included). */
  datatype Nal = Nal(start: nat, end: nat, nalType: nat, firstSlice: bool) {
    predicate IsVCL() { nalType == NAL_NON_IDR || nalType == NAL_IDR }

    /** A delimiter, or the first slice of a picture. */
    predicate OpensPicture() { nalType == NAL_AUD || (IsVCL() && firstSlice) }

    function Moved(off: nat): Nal { Nal(start + off, end + off, nalType, firstSlice) }
  }

  datatype AccessUnit = AccessUnit(data: seq<Byte>, isKeyframe: bool)

  // ---- Start codes ---------------------------------------------------------

  /** Length of the start code at b[i..], or 0. */
  function StartCodeLen(b: seq<Byte>, i: nat): (l: nat)
    ensures l == 0 || l == 3 || l == 4
    ensures l != 0 ==> i + l <= |b| && b[i] == 0
  {
    if i + 3 <= |b| && b[i] == 0 && b[i + 1] == 0 && b[i + 2] == 1 then 3
    else if i + 4 <= |b| && b[i] == 0 && b[i + 1] == 0 && b[i + 2] == 0 && b[i + 3] == 1 then 4
    else 0
  }

  /** Where the scan from `from` stops: the first start code at or after it, or the end of b. */
  ghost function NextCode(b: seq<Byte>, from: nat): (r: nat)
    requires from <= |b|
    ensures from <= r <= |b|
    ensures r < |b| ==> StartCodeLen(b, r) != 0
    decreases |b| - from
  {
    if from == |b| || StartCodeLen(b, from) != 0 then from else NextCode(b, from + 1)
  }

  lemma {:induction false} NextCodeUnique(b: seq<Byte>, from: nat, r: nat)
    requires from <= r <= |b|
    requires forall i :: from <= i < r ==> StartCodeLen(b, i) == 0
    requires r < |b| ==> StartCodeLen(b, r) != 0
    ensures NextCode(b, from) == r
    decreases r - from
  {
    if from < r {
      NextCodeUnique(b, from + 1, r);
    }
  }

  lemma {:induction false} NextCodeFirst(b: seq<Byte>, from: nat)
    requires from <= |b|
    ensures forall i :: from <= i < NextCode(b, from) ==> StartCodeLen(b, i) == 0
    decreases |b| - from
  {
    if from < |b| && StartCodeLen(b, from) == 0 {
      NextCodeFirst(b, from + 1);
    }
  }

  method FindStartCode(b: seq<Byte>, from: nat) returns (idx: int, scLen: nat)
    requires from <= |b|
    ensures idx == if NextCode(b, from) < |b| then NextCode(b, from) else -1
    ensures scLen == if idx >= 0 then StartCodeLen(b, idx) else 0
  {
    var i := from;
    while i + 3 <= |b|
      invariant from <= i <= |b|
      invariant forall j :: from <= j < i ==> StartCodeLen(b, j) == 0
    {
      var l := StartCodeLen(b, i);
      if l != 0 {
        NextCodeUnique(b, from, i);
        return i, l;
      }
      i := i + 1;
    }
    NextCodeUnique(b, from, |b|);
    return -1, 0;
  }

  // ---- NAL units -----------------------------------------------------------

  /** The NAL unit with start code at `start`, payload b[payload..end]. */
  function NalAt(b: seq<Byte>, start: nat, payload: nat, end: nat): Nal
    requires payload < end <= |b|
  {
    var t := b[payload] % 32;
    var vcl := t == NAL_NON_IDR || t == NAL_IDR;
    Nal(start, end, t, vcl && payload + 1 < end && b[payload + 1] >= 128)
  }

  ghost predicate Boundary(b: seq<Byte>, start: nat) {
    start <= |b| && (start < |b| ==> StartCodeLen(b, start) != 0)
  }

  /** The non-empty NAL units from the start code at `start` on. */
  ghost function NalsFrom(b: seq<Byte>, start: nat): seq<Nal>
    requires Boundary(b, start)
    decreases |b| - start
  {
    if start == |b| then [] else
    var payload := start + StartCodeLen(b, start);
    var end := NextCode(b, payload);
    if payload < end then [NalAt(b, start, payload, end)] + NalsFrom(b, end) else NalsFrom(b, end)
  }

  lemma NalsUnfold(b: seq<Byte>, start: nat, payload: nat, end: nat)
    requires Boundary(b, start) && start < |b|
    requires payload == start + StartCodeLen(b, start) && end == NextCode(b, payload)
    ensures NalsFrom(b, start) ==
            if payload < end then [NalAt(b, start, payload, end)] + NalsFrom(b, end) else NalsFrom(b, end)
  {
  }

  lemma NalsAtEnd(b: seq<Byte>)
    ensures NalsFrom(b, |b|) == []
  {
  }

  ghost function Nals(b: seq<Byte>): seq<Nal> { NalsFrom(b, NextCode(b, 0)) }

  /** The splitting loop has found `out` and looks at the start code at `start`, or has found all if there is none. */
  ghost predicate Splitting(b: seq<Byte>, out: seq<Nal>, start: int) {
    if start < 0 then Nals(b) == out
    else Boundary(b, start) && start < |b| && Nals(b) == out + NalsFrom(b, start)
  }

  lemma SplitStart(b: seq<Byte>)
    ensures Splitting(b, [], if NextCode(b, 0) < |b| then NextCode(b, 0) else -1)
  {
  }

  /** One turn of the loop: `out` grows by the NAL at `start`, if it is not empty. */
  lemma SplitTurn(b: seq<Byte>, out: seq<Nal>, start: nat, payload: nat, end: nat)
    requires Splitting(b, out, start) && payload == start + StartCodeLen(b, start) && end == NextCode(b, payload)
    ensures var more := if payload < end then out + [NalAt(b, start, payload, end)] else out;
            Splitting(b, more, if end < |b| then end else -1)
  {
    hide StartCodeLen, NextCode, NalAt, NalsFrom, Nals;
    NalsUnfold(b, start, payload, end);
    NalsAtEnd(b);
    if payload < end {
      Assoc(out, [NalAt(b, start, payload, end)], NalsFrom(b, end));
    }
  }

  method SplitNALUs(buf: seq<Byte>) returns (out: seq<Nal>)
    ensures out == Nals(buf)
  {
    hide StartCodeLen, NextCode, NalAt, NalsFrom, Nals;
    out := [];
    var start, scLen := FindStartCode(buf, 0);
    SplitStart(buf);
    if start < 0 {
      return;
    }
    while start >= 0
      invariant start >= 0 ==> start < |buf| && scLen == StartCodeLen(buf, start) != 0
      invariant Splitting(buf, out, start)
      decreases if start < 0 then 0 else |buf| + 1 - start
    {
      var payloadStart := start + scLen;
      var next, nextLen := FindStartCode(buf, payloadStart);
      var end := |buf|;
      if next >= 0 {
        end := next;
      }
      SplitTurn(buf, out, start, payloadStart, end);
      if payloadStart < end {
        out := out + [NalAt(buf, start, payloadStart, end)];
      }
      start, scLen := next, nextLen;
    }
  }

  ghost predicate Ordered(ns: seq<Nal>, lo: nat, hi: nat) {
    && (forall i :: 0 <= i < |ns| ==> lo <= ns[i].start < ns[i].end <= hi)
    && (forall i, j :: 0 <= i < j < |ns| ==> ns[i].end <= ns[j].start)
  }

  lemma NalAtSpan(b: seq<Byte>, start: nat, payload: nat, end: nat)
    requires payload < end <= |b|
    ensures NalAt(b, start, payload, end).start == start && NalAt(b, start, payload, end).end == end
  {
  }

  lemma OrderedCons(n: Nal, ns: seq<Nal>, lo: nat, mid: nat, hi: nat)
    requires n.start == lo < n.end == mid <= hi && Ordered(ns, mid, hi)
    ensures Ordered([n] + ns, lo, hi)
  {
  }

  lemma {:induction false} NalsFromOrdered(b: seq<Byte>, start: nat)
    requires Boundary(b, start)
    ensures Ordered(NalsFrom(b, start), start, |b|)
    ensures forall n :: n in NalsFrom(b, start) ==> Boundary(b, n.start) && n.start < |b|
    decreases |b| - start
  {
    hide StartCodeLen, NextCode, NalAt, NalsFrom;
    if start < |b| {
      var payload := start + StartCodeLen(b, start);
      var end := NextCode(b, payload);
      NalsFromOrdered(b, end);
      NalsUnfold(b, start, payload, end);
      if payload < end {
        NalAtSpan(b, start, payload, end);
        OrderedCons(NalAt(b, start, payload, end), NalsFrom(b, end), start, end, |b|);
      }
    } else {
      NalsAtEnd(b);
    }
  }

  // ---- Access units: the reference definition ------------------------------

  ghost predicate HasSlice(ns: seq<Nal>) { exists n :: n in ns && n.IsVCL() }

  ghost predicate HasIDR(ns: seq<Nal>) { exists n :: n in ns && n.nalType == NAL_IDR }

  /** Where the first access unit of ns ends, and whether it holds an IDR slice. */
  datatype Cut = NoCut | Cut(at: nat, idr: bool)

  /** The first NAL unit that opens a picture after a slice; `seen`, `idr` describe what came before ns. */
  ghost function FindCut(ns: seq<Nal>, seen: bool, idr: bool): Cut {
    if ns == [] then NoCut
    else if seen && ns[0].OpensPicture() then Cut(ns[0].start, idr)
    else FindCut(ns[1..], seen || ns[0].IsVCL(), idr || ns[0].nalType == NAL_IDR)
  }

  lemma {:induction false} FindCutInside(b: seq<Byte>, start: nat, seen: bool, idr: bool)
    requires Boundary(b, start)
    ensures var ns, cut := NalsFrom(b, start), FindCut(NalsFrom(b, start), seen, idr);
            cut.Cut? ==> ns != [] && start <= ns[0].start <= cut.at < |b| && Boundary(b, cut.at)
                         && (!seen ==> ns[0].start < cut.at)
    decreases |b| - start
  {
    var ns := NalsFrom(b, start);
    if start < |b| {
      var payload := start + StartCodeLen(b, start);
      var end := NextCode(b, payload);
      if payload < end {
        FindCutInside(b, end, seen || ns[0].IsVCL(), idr || ns[0].nalType == NAL_IDR);
      } else {
        FindCutInside(b, end, seen, idr);
      }
    }
  }

  ghost function FirstCut(b: seq<Byte>): (cut: Cut)
    ensures cut.Cut? ==> Nals(b) != [] && Nals(b)[0].start < cut.at < |b| && Boundary(b, cut.at)
  {
    FindCutInside(b, NextCode(b, 0), false, false);
    FindCut(Nals(b), false, false)
  }

  /** Bytes up to the first picture that follows a slice are one unit; the rest is split the same way. */
  ghost function Units(b: seq<Byte>): seq<AccessUnit>
    decreases |b|
  {
    match FirstCut(b)
    case NoCut => []
    case Cut(at, idr) => [AccessUnit(b[Nals(b)[0].start..at], idr)] + Units(b[at..])
  }

  /** What stays buffered: everything from the last cut on. */
  ghost function Rest(b: seq<Byte>): seq<Byte>
    decreases |b|
  {
    match FirstCut(b)
    case NoCut => b
    case Cut(at, _) => Rest(b[at..])
  }

  /** The unit Flush makes of a buffer without cuts. */
  ghost function Tail(b: seq<Byte>): seq<AccessUnit> {
    var ns := Nals(b);
    NalsFromOrdered(b, NextCode(b, 0));
    if ns == [] then [] else [AccessUnit(b[ns[0].start..], HasIDR(ns))]
  }

  ghost function AllUnits(b: seq<Byte>): seq<AccessUnit> { Units(b) + Tail(Rest(b)) }

  // ---- Parsing a suffix ----------------------------------------------------

  function Shifted(ns: seq<Nal>, off: nat): (r: seq<Nal>)
    ensures |r| == |ns| && forall i :: 0 <= i < |ns| ==> r[i] == ns[i].Moved(off)
  {
    seq(|ns|, i requires 0 <= i < |ns| => ns[i].Moved(off))
  }

  lemma ShiftedCons(n: Nal, ns: seq<Nal>, off: nat)
    ensures Shifted([n] + ns, off) == [n.Moved(off)] + Shifted(ns, off)
  {
  }

  lemma CodeShift(a: seq<Byte>, t: seq<Byte>, i: nat)
    ensures StartCodeLen(a + t, |a| + i) == StartCodeLen(t, i)
  {
    var b := a + t;
    assert i < |t| ==> b[|a| + i] == t[i];
    assert i + 1 < |t| ==> b[|a| + i + 1] == t[i + 1];
    assert i + 2 < |t| ==> b[|a| + i + 2] == t[i + 2];
    assert i + 3 < |t| ==> b[|a| + i + 3] == t[i + 3];
  }

  lemma {:induction false} NextCodeShift(a: seq<Byte>, t: seq<Byte>, from: nat)
    requires from <= |t|
    ensures NextCode(a + t, |a| + from) == |a| + NextCode(t, from)
    decreases |t| - from
  {
    CodeShift(a, t, from);
    if from < |t| && StartCodeLen(t, from) == 0 {
      NextCodeShift(a, t, from + 1);
    }
  }

  lemma NalAtShift(a: seq<Byte>, t: seq<Byte>, start: nat, payload: nat, end: nat)
    requires payload < end <= |t|
    ensures NalAt(a + t, |a| + start, |a| + payload, |a| + end) == NalAt(t, start, payload, end).Moved(|a|)
  {
    assert (a + t)[|a| + payload] == t[payload];
    assert payload + 1 < end ==> (a + t)[|a| + payload + 1] == t[payload + 1];
  }

  /** One NAL unit of t, found in b at an offset. */
  lemma NalsShiftStep(b: seq<Byte>, t: seq<Byte>, off: nat, start: nat, payload: nat, end: nat)
    requires Boundary(t, start) && start < |t| && payload == start + StartCodeLen(t, start) && end == NextCode(t, payload)
    requires Boundary(b, off + start) && off + start < |b| && Boundary(b, off + end)
    requires off + payload == off + start + StartCodeLen(b, off + start) && off + end == NextCode(b, off + payload)
    requires payload < end ==> NalAt(b, off + start, off + payload, off + end) == NalAt(t, start, payload, end).Moved(off)
    requires NalsFrom(b, off + end) == Shifted(NalsFrom(t, end), off)
    ensures NalsFrom(b, off + start) == Shifted(NalsFrom(t, start), off)
  {
    hide StartCodeLen, NextCode, NalAt, Shifted, NalsFrom;
    NalsUnfold(t, start, payload, end);
    NalsUnfold(b, off + start, off + payload, off + end);
    if payload < end {
      ShiftedCons(NalAt(t, start, payload, end), NalsFrom(t, end), off);
    }
  }

  lemma NothingShifted(a: seq<Byte>, t: seq<Byte>)
    ensures NalsFrom(a + t, |a| + |t|) == Shifted(NalsFrom(t, |t|), |a|)
  {
  }

  /** Bytes in front of a start code only move the offsets of what follows it. */
  lemma {:induction false} NalsShift(a: seq<Byte>, t: seq<Byte>, start: nat)
    requires Boundary(t, start)
    ensures Boundary(a + t, |a| + start)
    ensures NalsFrom(a + t, |a| + start) == Shifted(NalsFrom(t, start), |a|)
    decreases |t| - start
  {
    hide StartCodeLen, NextCode, NalAt, Shifted, NalsFrom;
    CodeShift(a, t, start);
    if start < |t| {
      var payload := start + StartCodeLen(t, start);
      var end := NextCode(t, payload);
      NextCodeShift(a, t, payload);
      NalsShift(a, t, end);
      if payload < end {
        NalAtShift(a, t, start, payload, end);
      }
      NalsShiftStep(a + t, t, |a|, start, payload, end);
    } else {
      NothingShifted(a, t);
    }
  }

  lemma {:induction false} NalsSuffix(b: seq<Byte>, start: nat, k: nat)
    requires Boundary(b, start)
    requires k < |NalsFrom(b, start)|
    ensures Boundary(b, NalsFrom(b, start)[k].start)
    ensures NalsFrom(b, NalsFrom(b, start)[k].start) == NalsFrom(b, start)[k..]
    decreases |b| - start
  {
    var payload := start + StartCodeLen(b, start);
    var end := NextCode(b, payload);
    if payload == end {
      NalsSuffix(b, end, k);
    } else if k > 0 {
      NalsSuffix(b, end, k - 1);
      assert NalsFrom(b, start)[k..] == NalsFrom(b, end)[k - 1..];
    }
  }

  /** Re-parsing from the k-th NAL unit on finds the same units, counted from there. */
  lemma ReparseFrom(b: seq<Byte>, k: nat)
    requires k < |Nals(b)|
    ensures Nals(b)[k].start < |b|
    ensures var at := Nals(b)[k].start; Shifted(Nals(b[at..]), at) == Nals(b)[k..]
  {
    hide StartCodeLen, NextCode, NalsFrom, Shifted;
    var at := Nals(b)[k].start;
    NalsFromOrdered(b, NextCode(b, 0));
    NalsSuffix(b, NextCode(b, 0), k);
    assert b[..at] + b[at..] == b;
    CodeShift(b[..at], b[at..], 0);
    NextCodeUnique(b[at..], 0, 0);
    NalsShift(b[..at], b[at..], 0);
  }

  lemma {:induction false} FindCutShift(ns: seq<Nal>, off: nat, seen: bool, idr: bool)
    ensures FindCut(Shifted(ns, off), seen, idr) ==
            match FindCut(ns, seen, idr) case NoCut => NoCut case Cut(at, i) => Cut(at + off, i)
  {
    if ns != [] {
      assert Shifted(ns, off)[1..] == Shifted(ns[1..], off);
      FindCutShift(ns[1..], off, seen || ns[0].IsVCL(), idr || ns[0].nalType == NAL_IDR);
    }
  }

  // ---- More bytes never undo a cut -----------------------------------------

  lemma CodeStable(b: seq<Byte>, c: seq<Byte>, i: nat)
    ensures i + 4 <= |b| || StartCodeLen(b, i) != 0 ==> StartCodeLen(b + c, i) == StartCodeLen(b, i)
  {
  }

  lemma NextCodeStable(b: seq<Byte>, c: seq<Byte>, from: nat)
    requires from <= |b|
    requires NextCode(b, from) < |b|
    ensures NextCode(b + c, from) == NextCode(b, from)
  {
    var r := NextCode(b, from);
    NextCodeFirst(b, from);
    forall i | from <= i < r
      ensures StartCodeLen(b + c, i) == 0
    {
      CodeStable(b, c, i);
    }
    CodeStable(b, c, r);
    NextCodeUnique(b + c, from, r);
  }

  lemma StepStable(b: seq<Byte>, c: seq<Byte>, start: nat)
    requires Boundary(b, start) && start < |b|
    ensures StartCodeLen(b + c, start) == StartCodeLen(b, start)
    ensures var payload := start + StartCodeLen(b, start);
            var end := NextCode(b, payload);
            end < |b| ==> NextCode(b + c, payload) == end
                          && (payload < end ==> NalAt(b + c, start, payload, end) == NalAt(b, start, payload, end))
  {
    CodeStable(b, c, start);
    var payload := start + StartCodeLen(b, start);
    if NextCode(b, payload) < |b| {
      NextCodeStable(b, c, payload);
    }
  }

  /** A NAL that opens a picture keeps its header when bytes arrive: neither byte can join a start code. */
  lemma OpenerStable(b: seq<Byte>, c: seq<Byte>, start: nat, payload: nat)
    requires payload < |b|
    requires NalAt(b, start, payload, |b|).OpensPicture()
    ensures payload < NextCode(b + c, payload)
    ensures NalAt(b + c, start, payload, NextCode(b + c, payload)).OpensPicture()
  {
    assert (b + c)[payload] == b[payload];
    assert payload + 1 < |b| ==> (b + c)[payload + 1] == b[payload + 1];
  }

  /** The last NAL unit of b makes a cut. */
  lemma CutStableLast(b: seq<Byte>, c: seq<Byte>, start: nat, payload: nat, seen: bool, idr: bool)
    requires Boundary(b, start) && Boundary(b + c, start) && start < |b|
    requires payload == start + StartCodeLen(b, start) == start + StartCodeLen(b + c, start) && NextCode(b, payload) == |b|
    requires FindCut(NalsFrom(b, start), seen, idr).Cut?
    ensures var ns, ms := NalsFrom(b, start), NalsFrom(b + c, start);
            ns != [] && ms != [] && FindCut(ms, seen, idr) == FindCut(ns, seen, idr) && ms[0].start == ns[0].start
  {
    hide StartCodeLen, NextCode, NalsFrom;
    NalsUnfold(b, start, payload, |b|);
    NalsAtEnd(b);
    assert NalAt(b, start, payload, |b|).OpensPicture();
    OpenerStable(b, c, start, payload);
    NalsUnfold(b + c, start, payload, NextCode(b + c, payload));
  }

  lemma {:induction false} CutStable(b: seq<Byte>, c: seq<Byte>, start: nat, seen: bool, idr: bool)
    requires Boundary(b, start)
    requires FindCut(NalsFrom(b, start), seen, idr).Cut?
    ensures Boundary(b + c, start)
    ensures var ns, ms := NalsFrom(b, start), NalsFrom(b + c, start);
            ns != [] && ms != [] && FindCut(ms, seen, idr) == FindCut(ns, seen, idr) && ms[0].start == ns[0].start
    decreases |b| - start
  {
    hide StartCodeLen, NextCode, NalAt, NalsFrom;
    if start == |b| {
      NalsAtEnd(b);
    } else {
      StepStable(b, c, start);
      var payload := start + StartCodeLen(b, start);
      var end := NextCode(b, payload);
      NalsUnfold(b, start, payload, end);
      if end == |b| {
        CutStableLast(b, c, start, payload, seen, idr);
      } else {
        NalsUnfold(b + c, start, payload, end);
        if payload == end {
          CutStable(b, c, end, seen, idr);
        } else {
          var n := NalAt(b, start, payload, end);
          if !(seen && n.OpensPicture()) {
            CutStable(b, c, end, seen || n.IsVCL(), idr || n.nalType == NAL_IDR);
          }
        }
      }
    }
  }

  lemma FirstCutStable(b: seq<Byte>, c: seq<Byte>)
    requires FirstCut(b).Cut?
    ensures FirstCut(b + c) == FirstCut(b) && Nals(b + c)[0].start == Nals(b)[0].start
  {
    NextCodeStable(b, c, 0);
    CutStable(b, c, NextCode(b, 0), false, false);
  }

  lemma UnitsNone(b: seq<Byte>)
    requires FirstCut(b).NoCut?
    ensures Units(b) == [] && Rest(b) == b
  {
  }

  lemma SliceOfAppend<T>(b: seq<T>, c: seq<T>, i: nat, j: nat)
    requires i <= j <= |b|
    ensures (b + c)[i..j] == b[i..j] && (b + c)[j..] == b[j..] + c
  {
  }

  /** Splitting b, then splitting what is left together with c, is splitting b + c. */
  lemma {:induction false} UnitsAppend(b: seq<Byte>, c: seq<Byte>)
    ensures Units(b + c) == Units(b) + Units(Rest(b) + c)
    ensures Rest(b + c) == Rest(Rest(b) + c)
    decreases |b|
  {
    hide StartCodeLen, NextCode, NalsFrom, Nals, FindCut, FirstCut, Units, Rest;
    if FirstCut(b).Cut? {
      var at, first, idr := FirstCut(b).at, Nals(b)[0].start, FirstCut(b).idr;
      FirstCutStable(b, c);
      UnitsStep(b, first, at, idr);
      UnitsStep(b + c, first, at, idr);
      SliceOfAppend(b, c, first, at);
      UnitsAppend(b[at..], c);
      Assoc([AccessUnit(b[first..at], idr)], Units(b[at..]), Units(Rest(b[at..]) + c));
    } else {
      UnitsNone(b);
    }
  }

  // ---- The splitter --------------------------------------------------------

  /** Buffer offset from which the units of Nals(b)[c..] are still to be emitted. */
  ghost function EmittedEnd(b: seq<Byte>, c: nat): (e: nat)
    requires c < |Nals(b)|
    ensures e <= Nals(b)[c].start < |b|
  {
    NalsFromOrdered(b, NextCode(b, 0));
    if c == 0 then 0 else Nals(b)[c].start
  }

  lemma RetainedNals(b: seq<Byte>, c: nat)
    requires c < |Nals(b)|
    ensures var e := EmittedEnd(b, c);
            Shifted(Nals(b[e..]), e) == Nals(b)[c..]
  {
    if c == 0 {
      assert b[0..] == b;
    } else {
      ReparseFrom(b, c);
    }
  }

  lemma UnitsStep(t: seq<Byte>, p: nat, q: nat, idr: bool)
    requires FirstCut(t) == Cut(q, idr) && Nals(t)[0].start == p
    ensures p <= q <= |t|
    ensures Units(t) == [AccessUnit(t[p..q], idr)] + Units(t[q..]) && Rest(t) == Rest(t[q..])
  {
  }

  lemma SliceOfSuffix<T>(s: seq<T>, e: nat, i: nat, j: nat)
    requires e <= i <= j <= |s|
    ensures s[e..][i - e..j - e] == s[i..j] && s[e..][j - e..] == s[j..]
  {
  }

  lemma UnitsOfSuffix(b: seq<Byte>, e: nat, first: nat, at: nat, idr: bool)
    requires e <= first <= at <= |b|
    requires FirstCut(b[e..]) == Cut(at - e, idr) && Nals(b[e..])[0].start == first - e
    ensures Units(b[e..]) == [AccessUnit(b[first..at], idr)] + Units(b[at..])
    ensures Rest(b[e..]) == Rest(b[at..])
  {
    hide *;
    UnitsStep(b[e..], first - e, at - e, idr);
    SliceOfSuffix(b, e, first, at);
  }

  lemma CutOfSuffix(b: seq<Byte>, c: nat, at: nat, idr: bool)
    requires c < |Nals(b)|
    requires FindCut(Nals(b)[c..], false, false) == Cut(at, idr)
    ensures var e := EmittedEnd(b, c);
            && e <= Nals(b)[c].start <= at <= |b|
            && FirstCut(b[e..]) == Cut(at - e, idr)
            && Nals(b[e..])[0].start == Nals(b)[c].start - e
  {
    var e := EmittedEnd(b, c);
    RetainedNals(b, c);
    var ns := Nals(b[e..]);
    FindCutShift(ns, e, false, false);
    assert ns[0].Moved(e) == Shifted(ns, e)[0] == Nals(b)[c];
    assert FirstCut(b[e..]).Cut?;
  }

  /** One pass over the NAL list emits at its next cut what re-parsing the retained bytes would emit. */
  lemma DrainCut(b: seq<Byte>, c: nat, at: nat, idr: bool)
    requires c < |Nals(b)|
    requires FindCut(Nals(b)[c..], false, false) == Cut(at, idr)
    ensures Nals(b)[c].start <= at <= |b|
    ensures Units(b[EmittedEnd(b, c)..]) == [AccessUnit(b[Nals(b)[c].start..at], idr)] + Units(b[at..])
    ensures Rest(b[EmittedEnd(b, c)..]) == Rest(b[at..])
  {
    CutOfSuffix(b, c, at, idr);
    UnitsOfSuffix(b, EmittedEnd(b, c), Nals(b)[c].start, at, idr);
  }

  lemma DrainEnd(b: seq<Byte>, c: nat)
    requires c < |Nals(b)|
    requires FindCut(Nals(b)[c..], false, false).NoCut?
    ensures var t := b[EmittedEnd(b, c)..];
            && Units(t) == [] && Rest(t) == t
            && Tail(t) == [AccessUnit(b[Nals(b)[c].start..], HasIDR(Nals(b)[c..]))]
  {
    var e := EmittedEnd(b, c);
    RetainedNals(b, c);
    var t := b[e..];
    FindCutShift(Nals(t), e, false, false);
    NalsFromOrdered(b, NextCode(b, 0));
    NalsFromOrdered(t, NextCode(t, 0));
    assert Shifted(Nals(t), e)[0] == Nals(b)[c];
    assert t[Nals(t)[0].start..] == b[Nals(b)[c].start..];
    HasIDRShift(Nals(t), e);
  }

  lemma HasIDRShift(ns: seq<Nal>, off: nat)
    ensures HasIDR(Shifted(ns, off)) == HasIDR(ns)
  {
    forall i | 0 <= i < |ns| && ns[i].nalType == NAL_IDR
      ensures HasIDR(Shifted(ns, off))
    {
      assert Shifted(ns, off)[i] in Shifted(ns, off);
    }
  }

  /** State of the drain loop before NAL i: units `aus` are out, the open unit began at NAL c. */
  ghost predicate Draining(b: seq<Byte>, i: nat, c: nat, aus: seq<AccessUnit>, seen: bool, idr: bool) {
    && c <= i <= |Nals(b)| && c < |Nals(b)|
    && (i == c ==> !seen && !idr)
    && Units(b) == aus + Units(b[EmittedEnd(b, c)..])
    && Rest(b) == Rest(b[EmittedEnd(b, c)..])
    && FindCut(Nals(b)[c..], false, false) == FindCut(Nals(b)[i..], seen, idr)
    && (idr <==> HasIDR(Nals(b)[c..i]))
  }

  lemma HasIDRSnoc(ns: seq<Nal>, n: Nal)
    ensures HasIDR(ns + [n]) <==> HasIDR(ns) || n.nalType == NAL_IDR
  {
    if HasIDR(ns) {
      var m :| m in ns && m.nalType == NAL_IDR;
      assert m in ns + [n];
    }
    assert n in ns + [n];
  }

  lemma DrainKeep(b: seq<Byte>, i: nat, c: nat, aus: seq<AccessUnit>, seen: bool, idr: bool)
    requires Draining(b, i, c, aus, seen, idr) && i < |Nals(b)|
    requires !(seen && Nals(b)[i].OpensPicture())
    ensures var n := Nals(b)[i];
            Draining(b, i + 1, c, aus, seen || n.IsVCL(), idr || n.nalType == NAL_IDR)
  {
    var ns := Nals(b);
    assert ns[i..][1..] == ns[i + 1..];
    assert ns[c..i + 1] == ns[c..i] + [ns[i]];
    HasIDRSnoc(ns[c..i], ns[i]);
  }

  lemma DrainEmit(b: seq<Byte>, i: nat, c: nat, aus: seq<AccessUnit>, idr: bool)
    requires Draining(b, i, c, aus, true, idr) && i < |Nals(b)|
    requires Nals(b)[i].OpensPicture()
    ensures Nals(b)[c].start <= Nals(b)[i].start <= |b|
    ensures Draining(b, i, i, aus + [AccessUnit(b[Nals(b)[c].start..Nals(b)[i].start], idr)], false, false)
  {
    hide Nals, Units, Rest;
    var at := Nals(b)[i].start;
    assert i > c && EmittedEnd(b, i) == at;
    DrainCut(b, c, at, idr);
    var unit, rest := [AccessUnit(b[Nals(b)[c].start..at], idr)], Units(b[at..]);
    assert aus + (unit + rest) == (aus + unit) + rest;
    assert Nals(b)[i..i] == [];
  }

  lemma DrainDone(b: seq<Byte>, c: nat, aus: seq<AccessUnit>, seen: bool, idr: bool)
    requires Draining(b, |Nals(b)|, c, aus, seen, idr)
    ensures Units(b) == aus && Rest(b) == b[EmittedEnd(b, c)..]
    ensures AllUnits(b) == aus + [AccessUnit(b[Nals(b)[c].start..], idr)]
  {
    assert Nals(b)[c..|Nals(b)|] == Nals(b)[c..];
    DrainEnd(b, c);
  }

  lemma NothingToDrain(b: seq<Byte>)
    requires Nals(b) == []
    ensures Units(b) == [] && Rest(b) == b && AllUnits(b) == []
  {
    assert FirstCut(b).NoCut?;
  }

  lemma DrainStart(b: seq<Byte>)
    requires Nals(b) != []
    ensures Draining(b, 0, 0, [], false, false)
  {
    assert b[0..] == b;
  }

  class AnnexBSplitter {
    var buf: seq<Byte>

    constructor ()
      ensures buf == []
    {
      buf := [];
    }

    method Push(chunk: seq<Byte>) returns (aus: seq<AccessUnit>)
      modifies this
      ensures aus == Units(old(buf) + chunk)
      ensures buf == Rest(old(buf) + chunk)
    {
      buf := buf + chunk;
      aus := Drain(false);
    }

    /** A buffer that holds no NAL unit survives the flush. */
    method Flush() returns (aus: seq<AccessUnit>)
      modifies this
      ensures aus == AllUnits(old(buf))
      ensures buf == if Nals(old(buf)) == [] then old(buf) else []
    {
      aus := Drain(true);
    }

    method Drain(final: bool) returns (aus: seq<AccessUnit>)
      modifies this
      ensures aus == if final then AllUnits(old(buf)) else Units(old(buf))
      ensures buf == if !final then Rest(old(buf)) else if Nals(old(buf)) == [] then old(buf) else []
    {
      hide StartCodeLen, NextCode, NalsFrom, Nals, FindCut, Units, Rest, Tail, AllUnits, HasIDR;
      var nalus := SplitNALUs(buf);
      aus := [];
      if |nalus| == 0 {
        NothingToDrain(buf);
        return;
      }
      var auStart, seenVCL, auHasIDR, emittedEnd := nalus[0].start, false, false, 0;
      ghost var c := 0;
      DrainStart(buf);
      for i := 0 to |nalus|
        invariant buf == old(buf)
        invariant Draining(buf, i, c, aus, seenVCL, auHasIDR)
        invariant auStart == nalus[c].start && emittedEnd == EmittedEnd(buf, c)
      {
        var n := nalus[i];
        if seenVCL && n.OpensPicture() {
          DrainEmit(buf, i, c, aus, auHasIDR);
          aus := aus + [AccessUnit(buf[auStart..n.start], auHasIDR)];
          emittedEnd := n.start;
          auStart := n.start;
          seenVCL := false;
          auHasIDR := false;
          c := i;
        }
        DrainKeep(buf, i, c, aus, seenVCL, auHasIDR);
        if n.IsVCL() {
          seenVCL := true;
          if n.nalType == NAL_IDR {
            auHasIDR := true;
          }
        }
      }
      DrainDone(buf, c, aus, seenVCL, auHasIDR);
      if final {
        if auStart < |buf| {
          aus := aus + [AccessUnit(buf[auStart..], auHasIDR)];
        }
        buf := [];
        return;
      }
      if emittedEnd > 0 {
        buf := buf[emittedEnd..];
      }
    }
  }
}
