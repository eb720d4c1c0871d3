/** A reference muxer for Annex B, and the proof that the splitter inverts it picture by picture. */
module AnnexBRoundTrip {
  import opened Common
  import opened AnnexB
  import opened AnnexBUnits

  // ---- Exp-Golomb codes (section 9.1 of ITU-T H.264) -----------------------

  ghost predicate Bit(s: seq<Byte>, i: nat)
    requires i < 8 * |s|
  {
    s[i / 8] / [128, 64, 32, 16, 8, 4, 2, 1][i % 8] % 2 == 1
  }

  ghost function LeadingZeros(s: seq<Byte>, i: nat): nat
    requires i <= 8 * |s|
    decreases 8 * |s| - i
  {
    if i == 8 * |s| || Bit(s, i) then 0 else 1 + LeadingZeros(s, i + 1)
  }

  ghost function ReadBits(s: seq<Byte>, i: nat, n: nat): nat
    requires i + n <= 8 * |s|
  {
    if n == 0 then 0 else 2 * ReadBits(s, i, n - 1) + (if Bit(s, i + n - 1) then 1 else 0)
  }

  ghost function Pow2(n: nat): (r: nat)
    ensures r > n
  {
    if n == 0 then 1 else 2 * Pow2(n - 1)
  }

  /** The number coded at the start of s, if s is long enough for it. */
  ghost function ExpGolomb(s: seq<Byte>): Option<nat> {
    var zeros := LeadingZeros(s, 0);
    if 2 * zeros + 1 > 8 * |s| then None else Some(Pow2(zeros) - 1 + ReadBits(s, zeros + 1, zeros))
  }

  /** Zero is the code of a single one bit. */
  lemma ZeroIsOneBit(s: seq<Byte>)
    ensures ExpGolomb(s) == Some(0) <==> s != [] && s[0] >= 128
  {
    if s != [] {
      assert Bit(s, 0) <==> s[0] / 128 % 2 == 1;
      assert s[0] >= 128 <==> s[0] / 128 == 1;
    }
  }

  // ---- Writing NAL units ---------------------------------------------------

  ghost predicate CodeAt(p: seq<Byte>, i: nat) { i + 3 <= |p| && p[i] == 0 && p[i + 1] == 0 && p[i + 2] == 1 }

  type HighBits = n: int | 0 <= n < 8
  type NalType = n: int | 0 <= n < 32

  /** A NAL unit to be written with a three- or four-byte start code (section B.1 of ITU-T H.264). Its header byte holds
      the forbidden bit and nal_ref_idc, then nal_unit_type (section 7.3.1); a slice's body starts with first_mb_in_slice
      (section 7.3.3). */
  datatype Coded = Coded(long: bool, high: HighBits, nalType: NalType, body: seq<Byte>) {
    function Code(): seq<Byte> { if long then [0, 0, 0, 1] else [0, 0, 1] }

    function Payload(): seq<Byte> { [32 * high + nalType] + body }

    function Encode(): seq<Byte> { Code() + Payload() }

    /** Free of start codes and not ending in a zero byte. */
    ghost predicate Clean() {
      Payload()[|body|] != 0 && forall i: nat :: !CodeAt(Payload(), i)
    }

    /** Types of Table 7-1: a slice of a non-IDR or an IDR picture, an IDR slice, an access unit delimiter. */
    predicate IsSlice() { nalType == 1 || nalType == 5 }

    predicate IsIdr() { nalType == 5 }

    predicate IsDelimiter() { nalType == 9 }

    /** A slice that starts a picture: its first macroblock is number 0. */
    ghost predicate IsFirstSlice() { IsSlice() && ExpGolomb(body) == Some(0) }

    ghost predicate Opens() { IsDelimiter() || IsFirstSlice() }

    /** How the parser should describe it, at the start of a buffer. */
    ghost function Describe(): Nal { Nal(0, |Encode()|, nalType, IsFirstSlice()) }
  }

  ghost predicate AllClean(list: seq<Coded>) { forall i :: 0 <= i < |list| ==> list[i].Clean() }

  function Mux(list: seq<Coded>): seq<Byte> {
    if list == [] then [] else list[0].Encode() + Mux(list[1..])
  }

  ghost function Described(list: seq<Coded>): seq<Nal>
    requires AllClean(list)
  {
    if list == [] then []
    else [list[0].Describe()] + Shifted(Described(list[1..]), |list[0].Encode()|)
  }

  lemma MuxStartsAtCode(list: seq<Coded>)
    requires AllClean(list)
    ensures Boundary(Mux(list), 0) && NextCode(Mux(list), 0) == 0
    ensures list != [] ==> StartCodeLen(Mux(list), 0) == |list[0].Code()|
  {
    if list != [] {
      var b := Mux(list);
      assert b[..|list[0].Code()|] == list[0].Code();
      assert b[0] == 0 && b[1] == 0 && b[2] == list[0].Code()[2];
      assert list[0].long ==> b[3] == 1;
      assert StartCodeLen(b, 0) == |list[0].Code()|;
    }
  }

  /** A clean payload is followed exactly where the next start code begins. */
  lemma CodeInPayload(p: seq<Byte>, t: seq<Byte>, i: nat)
    requires i < |p| && p[|p| - 1] != 0 && StartCodeLen(p, i) == 0
    ensures StartCodeLen(p + t, i) == 0
  {
    var b := p + t;
    assert forall j :: 0 <= j < |p| ==> b[j] == p[j];
  }

  lemma NoCodeInside(p: seq<Byte>, i: nat)
    requires i < |p| && forall j: nat :: !CodeAt(p, j)
    ensures StartCodeLen(p, i) == 0
  {
    assert !CodeAt(p, i) && !CodeAt(p, i + 1);
  }

  lemma PayloadEnd(c: Coded, list: seq<Coded>)
    requires c.Clean() && AllClean(list)
    ensures NextCode(c.Payload() + Mux(list), 0) == |c.Payload()|
  {
    var t := Mux(list);
    forall i | 0 <= i < |c.Payload()|
      ensures StartCodeLen(c.Payload() + t, i) == 0
    {
      NoCodeInside(c.Payload(), i);
      CodeInPayload(c.Payload(), t, i);
    }
    MuxStartsAtCode(list);
    CodeShift(c.Payload(), t, 0);
    NextCodeUnique(c.Payload() + t, 0, |c.Payload()|);
  }

  lemma HeadNal(c: Coded, t: seq<Byte>)
    ensures NalAt(c.Encode() + t, 0, |c.Code()|, |c.Encode()|) == c.Describe()
  {
    hide ExpGolomb;
    var b, at := c.Encode() + t, |c.Code()|;
    ZeroIsOneBit(c.body);
    assert b[at] == 32 * c.high + c.nalType;
    assert c.body != [] ==> b[at + 1] == c.body[0];
  }

  lemma HeadOfMux(list: seq<Coded>)
    requires AllClean(list) && list != []
    ensures var b, c := Mux(list), list[0];
            && StartCodeLen(b, 0) == |c.Code()|
            && |c.Encode()| <= |b| && NextCode(b, |c.Code()|) == |c.Encode()|
            && NalAt(b, 0, |c.Code()|, |c.Encode()|) == c.Describe()
  {
    var c, t := list[0], Mux(list[1..]);
    MuxStartsAtCode(list);
    PayloadEnd(c, list[1..]);
    NextCodeShift(c.Code(), c.Payload() + t, 0);
    Assoc(c.Code(), c.Payload(), t);
    HeadNal(c, t);
  }

  lemma NalsCons(e: seq<Byte>, t: seq<Byte>, code: nat, d: Nal)
    requires code < |e| && StartCodeLen(e + t, 0) == code != 0 && NextCode(e + t, 0) == 0
    requires NextCode(e + t, code) == |e| && NalAt(e + t, 0, code, |e|) == d
    requires Boundary(t, 0) && NextCode(t, 0) == 0
    ensures Nals(e + t) == [d] + Shifted(Nals(t), |e|)
  {
    hide StartCodeLen, NextCode, NalAt, Shifted, NalsFrom;
    NalsShift(e, t, 0);
    NalsUnfold(e + t, 0, code, |e|);
  }

  lemma NalsOfMuxStep(list: seq<Coded>)
    requires AllClean(list) && list != [] && Nals(Mux(list[1..])) == Described(list[1..])
    ensures Nals(Mux(list)) == Described(list)
  {
    hide StartCodeLen, NextCode, NalAt, Shifted, NalsFrom, Nals;
    var c, t := list[0], Mux(list[1..]);
    MuxStartsAtCode(list);
    HeadOfMux(list);
    MuxStartsAtCode(list[1..]);
    NalsCons(c.Encode(), t, |c.Code()|, c.Describe());
  }

  /** Parsing a muxed stream gives back its NAL units. */
  lemma {:induction false} NalsOfMux(list: seq<Coded>)
    requires AllClean(list)
    ensures Nals(Mux(list)) == Described(list)
  {
    if list != [] {
      NalsOfMux(list[1..]);
      NalsOfMuxStep(list);
    }
  }

  lemma {:induction false} DescribedSize(list: seq<Coded>)
    requires AllClean(list)
    ensures |Described(list)| == |list|
    ensures list != [] ==> Described(list)[0] == list[0].Describe() && Described(list)[0].start == 0
  {
    if list != [] {
      DescribedSize(list[1..]);
    }
  }

  lemma {:induction false} MuxAppend(a: seq<Coded>, b: seq<Coded>)
    ensures Mux(a + b) == Mux(a) + Mux(b)
  {
    if a == [] {
      assert a + b == b;
    } else {
      Uncons(a, b);
      MuxAppend(a[1..], b);
      assert a[0].Encode() + (Mux(a[1..]) + Mux(b)) == (a[0].Encode() + Mux(a[1..])) + Mux(b);
    }
  }

  lemma ShiftedAppend(d: Nal, x: seq<Nal>, y: seq<Nal>, m: nat, n: nat)
    ensures [d] + Shifted(x + Shifted(y, m), n) == ([d] + Shifted(x, n)) + Shifted(y, n + m)
  {
  }

  lemma DescribedCons(c: Coded, list: seq<Coded>)
    requires c.Clean() && AllClean(list)
    ensures AllClean([c] + list)
    ensures Described([c] + list) == [c.Describe()] + Shifted(Described(list), |c.Encode()|)
    ensures |Mux([c] + list)| == |c.Encode()| + |Mux(list)|
  {
    assert ([c] + list)[1..] == list;
  }

  lemma DescribedAppendCons(c: Coded, t: seq<Coded>, b: seq<Coded>)
    requires c.Clean() && AllClean(t) && AllClean(b) && AllClean(t + b)
    requires Described(t + b) == Described(t) + Shifted(Described(b), |Mux(t)|)
    ensures AllClean([c] + t) && AllClean([c] + (t + b))
    ensures Described([c] + (t + b)) == Described([c] + t) + Shifted(Described(b), |Mux([c] + t)|)
  {
    hide Described, Mux, Shifted, AllClean, Coded.Describe, Coded.Encode;
    DescribedCons(c, t);
    DescribedCons(c, t + b);
    ShiftedAppend(c.Describe(), Described(t), Described(b), |Mux(t)|, |c.Encode()|);
  }

  lemma {:induction false} DescribedAppend(a: seq<Coded>, b: seq<Coded>)
    requires AllClean(a) && AllClean(b)
    ensures AllClean(a + b) && Described(a + b) == Described(a) + Shifted(Described(b), |Mux(a)|)
  {
    if a == [] {
      assert a + b == b;
    } else {
      DescribedAppend(a[1..], b);
      DescribedAppendCons(a[0], a[1..], b);
      Uncons(a, b);
    }
  }

  lemma {:induction false} FindCutAppend(ns: seq<Nal>, ms: seq<Nal>, seen: bool, idr: bool)
    requires FindCut(ns, seen, idr).NoCut?
    ensures FindCut(ns + ms, seen, idr) == FindCut(ms, seen || HasSlice(ns), idr || HasIDR(ns))
  {
    if ns == [] {
      assert ns + ms == ms;
    } else {
      assert (ns + ms)[1..] == ns[1..] + ms;
      FindCutAppend(ns[1..], ms, seen || ns[0].IsVCL(), idr || ns[0].nalType == NAL_IDR);
      SliceCons(ns, |ns|);
      assert ns[..|ns|] == ns && ns[1..][..|ns| - 1] == ns[1..];
    }
  }

  // ---- Pictures ------------------------------------------------------------

  /** The NAL units of one coded picture: no second picture opens after its first slice. */
  ghost predicate Picture(pic: seq<Coded>) {
    && AllClean(pic)
    && (exists i :: 0 <= i < |pic| && pic[i].IsSlice())
    && (forall i, j :: 0 <= i < j < |pic| && pic[i].IsSlice() ==> !pic[j].Opens())
  }

  /** Consecutive pictures: each after the first begins with a delimiter or its first slice. */
  ghost predicate Pictures(pics: seq<seq<Coded>>) {
    && (forall i :: 0 <= i < |pics| ==> Picture(pics[i]))
    && (forall i :: 0 < i < |pics| ==> pics[i][0].Opens())
  }

  ghost function UnitOf(pic: seq<Coded>): AccessUnit
    requires AllClean(pic)
  {
    AccessUnit(Mux(pic), exists i :: 0 <= i < |pic| && pic[i].IsIdr())
  }

  ghost function UnitsOf(pics: seq<seq<Coded>>): seq<AccessUnit>
    requires forall i :: 0 <= i < |pics| ==> AllClean(pics[i])
  {
    if pics == [] then [] else [UnitOf(pics[0])] + UnitsOf(pics[1..])
  }

  lemma {:induction false} DescribedAt(list: seq<Coded>, i: nat)
    requires AllClean(list) && i < |list|
    ensures |Described(list)| == |list|
    ensures Described(list)[i].IsVCL() == list[i].IsSlice() && Described(list)[i].OpensPicture() == list[i].Opens()
    ensures Described(list)[i].nalType == list[i].nalType
  {
    hide ExpGolomb, Coded.Encode, Coded.Clean;
    DescribedSize(list);
    if i > 0 {
      DescribedAt(list[1..], i - 1);
      assert Described(list)[i] == Described(list[1..])[i - 1].Moved(|list[0].Encode()|);
    }
  }

  lemma PictureHasNoCut(pic: seq<Coded>)
    requires Picture(pic)
    ensures var ns := Described(pic); HasSlice(ns) && FindCut(ns, false, false).NoCut?
  {
    hide Described, FindCut;
    var ns := Described(pic);
    DescribedSize(pic);
    forall i | 0 <= i < |pic|
      ensures ns[i].IsVCL() == pic[i].IsSlice() && ns[i].OpensPicture() == pic[i].Opens()
    {
      DescribedAt(pic, i);
    }
    var s :| 0 <= s < |pic| && pic[s].IsSlice();
    assert ns[s] in ns;
    var k := FindCutMeaning(ns, false, false);
  }

  lemma PictureIdr(pic: seq<Coded>)
    requires AllClean(pic)
    ensures HasIDR(Described(pic)) <==> exists i :: 0 <= i < |pic| && pic[i].IsIdr()
  {
    hide Described;
    var ns := Described(pic);
    DescribedSize(pic);
    forall i | 0 <= i < |pic|
      ensures ns[i] in ns && ns[i].nalType == pic[i].nalType
    {
      DescribedAt(pic, i);
    }
  }

  lemma LastPicture(pic: seq<Coded>)
    requires Picture(pic)
    ensures AllUnits(Mux(pic)) == [UnitOf(pic)]
  {
    PictureHasNoCut(pic);
    PictureIdr(pic);
    NalsOfMux(pic);
    DescribedSize(pic);
    assert Mux(pic)[0..] == Mux(pic);
    assert FirstCut(Mux(pic)).NoCut?;
  }

  lemma FirstPicture(pic: seq<Coded>, more: seq<Coded>)
    requires Picture(pic) && AllClean(more) && more != [] && more[0].Opens()
    ensures AllUnits(Mux(pic) + Mux(more)) == [UnitOf(pic)] + AllUnits(Mux(more))
  {
    hide ExpGolomb, Coded.Encode, Coded.Clean, Coded.IsFirstSlice, Mux, Nals;
    var b, at := Mux(pic) + Mux(more), |Mux(pic)|;
    MuxAppend(pic, more);
    DescribedAppend(pic, more);
    NalsOfMux(pic + more);
    DescribedSize(pic);
    DescribedAt(more, 0);
    DescribedSize(more);
    PictureHasNoCut(pic);
    PictureIdr(pic);
    FindCutAppend(Described(pic), Shifted(Described(more), at), false, false);
    assert FirstCut(b) == Cut(at, HasIDR(Described(pic)));
    AllUnitsCons(b);
    assert b[0..at] == Mux(pic) && b[at..] == Mux(more);
  }

  lemma PictureNotEmpty(pic: seq<Coded>)
    requires Picture(pic)
    ensures pic != []
  {
  }

  lemma LaterPictures(pics: seq<seq<Coded>>)
    requires Pictures(pics) && pics != []
    ensures Picture(pics[0]) && Pictures(pics[1..])
    ensures |pics| > 1 ==> pics[1] != [] && pics[1][0].Opens()
  {
    hide Picture, Coded.Opens;
    assert forall i :: 0 < i < |pics| ==> pics[1..][i - 1] == pics[i];
    if |pics| > 1 {
      PictureNotEmpty(pics[1]);
    }
  }

  lemma {:induction false} AllCleanFlatten(pics: seq<seq<Coded>>)
    requires Pictures(pics)
    ensures AllClean(Flatten(pics))
    ensures pics != [] ==> pics[0] != [] && Flatten(pics) != [] && Flatten(pics)[0] == pics[0][0]
  {
    if pics != [] {
      LaterPictures(pics);
      AllCleanFlatten(pics[1..]);
    }
  }

  lemma NothingMuxed()
    ensures AllUnits(Mux([])) == []
  {
    assert Nals([]) == [] && FirstCut([]).NoCut?;
  }

  /** The splitter gives back exactly the pictures that were muxed, each with its keyframe flag. */
  lemma {:induction false} SplitInvertsMux(pics: seq<seq<Coded>>)
    requires Pictures(pics)
    ensures AllUnits(Mux(Flatten(pics))) == UnitsOf(pics)
  {
    hide Picture, Mux, AllUnits, UnitOf, Coded.Opens;
    if |pics| == 0 {
      NothingMuxed();
    } else {
      var more := Flatten(pics[1..]);
      LaterPictures(pics);
      SplitInvertsMux(pics[1..]);
      if |pics| == 1 {
        LastPicture(pics[0]);
        assert pics[0] + more == pics[0];
      } else {
        AllCleanFlatten(pics[1..]);
        MuxAppend(pics[0], more);
        FirstPicture(pics[0], more);
      }
    }
  }

  // ---- What is sent between two pictures -----------------------------------

  /** The first delimiter of the list, or its end. */
  function FirstDelimiter(list: seq<Coded>): (d: nat)
    ensures d <= |list| && (d < |list| ==> list[d].IsDelimiter())
    ensures forall i :: 0 <= i < d ==> !list[i].IsDelimiter()
  {
    if list == [] || list[0].IsDelimiter() then 0 else 1 + FirstDelimiter(list[1..])
  }

  ghost predicate NoSlices(list: seq<Coded>) { forall i :: 0 <= i < |list| ==> !list[i].IsSlice() }

  lemma EarlierPart(pic: seq<Coded>, between: seq<Coded>)
    requires Picture(pic) && AllClean(between) && NoSlices(between)
    requires forall i :: 0 <= i < |between| ==> !between[i].IsDelimiter()
    ensures Picture(pic + between) && (pic + between)[0] == pic[0]
  {
    var all := pic + between;
    var s :| 0 <= s < |pic| && pic[s].IsSlice();
    assert all[s].IsSlice();
    assert forall i :: 0 <= i < |between| ==> !between[i].Opens();
    assert forall i :: |pic| <= i < |all| ==> all[i] == between[i - |pic|];
  }

  lemma LaterPart(between: seq<Coded>, next: seq<Coded>)
    requires Picture(next) && AllClean(between) && NoSlices(between)
    ensures Picture(between + next)
  {
    var all := between + next;
    var s :| 0 <= s < |next| && next[s].IsSlice();
    assert all[|between| + s].IsSlice();
    assert forall i :: |between| <= i < |all| ==> all[i] == next[i - |between|];
  }

  /** Whether a delimiter comes with list[j] or before it. */
  ghost predicate Delimited(list: seq<Coded>, j: nat) { exists i :: 0 <= i <= j < |list| && list[i].IsDelimiter() }

  /** NAL units without slices sent between two pictures, such as parameter sets, are parted by their first
      delimiter: what comes before it stays in the unit of the earlier picture, the rest is in the later one's. So the
      later unit, a keyframe's or not, carries such a NAL unit iff a delimiter comes with it or before it. */
  lemma BetweenPictures(pic: seq<Coded>, between: seq<Coded>, next: seq<Coded>, after: seq<seq<Coded>>)
    requires Picture(pic) && AllClean(between) && NoSlices(between)
    requires Pictures([next] + after) && next != [] && next[0].IsSlice() && next[0].Opens()
    ensures var d := FirstDelimiter(between);
            && (forall j: nat :: j < |between| ==> (Delimited(between, j) <==> d <= j))
            && Pictures([pic + between[..d], between[d..] + next] + after)
            && AllUnits(Mux(pic + between + (next + Flatten(after))))
               == UnitsOf([pic + between[..d], between[d..] + next] + after)
  {
    hide AllUnits, Mux, Picture;
    var d := FirstDelimiter(between);
    PartedPictures(pic, between, next, after);
    SplitInvertsMux([pic + between[..d], between[d..] + next] + after);
    FlattenParted(pic, between, d, next, after);
  }

  lemma PartedPictures(pic: seq<Coded>, between: seq<Coded>, next: seq<Coded>, after: seq<seq<Coded>>)
    requires Picture(pic) && AllClean(between) && NoSlices(between)
    requires Pictures([next] + after) && next != [] && next[0].IsSlice() && next[0].Opens()
    ensures var d := FirstDelimiter(between);
            Pictures([pic + between[..d], between[d..] + next] + after)
  {
    hide Picture, Coded.Opens, Coded.IsSlice, Coded.IsDelimiter;
    var d := FirstDelimiter(between);
    var x, y := pic + between[..d], between[d..] + next;
    var following := [next] + after;
    assert following[0] == next && following[1..] == after;
    LaterPictures(following);
    EarlierPart(pic, between[..d]);
    LaterPart(between[d..], next);
    PicturesCons(y, after);
    FrontOpens(between, d, next);
    PicturesCons(x, [y] + after);
    assert [x] + ([y] + after) == [x, y] + after;
  }

  lemma FrontOpens(between: seq<Coded>, d: nat, next: seq<Coded>)
    requires d <= |between| && (d < |between| ==> between[d].IsDelimiter()) && next != [] && next[0].Opens()
    ensures (between[d..] + next)[0].Opens()
  {
  }

  lemma PicturesCons(pic: seq<Coded>, more: seq<seq<Coded>>)
    requires Picture(pic) && Pictures(more) && (more != [] ==> more[0] != [] && more[0][0].Opens())
    ensures Pictures([pic] + more)
  {
    hide Picture, Coded.Opens;
    var all := [pic] + more;
    assert forall i :: 0 < i < |all| ==> all[i] == more[i - 1];
  }

  lemma FlattenParted<T>(pic: seq<T>, between: seq<T>, d: nat, next: seq<T>, after: seq<seq<T>>)
    requires d <= |between|
    ensures Flatten([pic + between[..d], between[d..] + next] + after) == pic + between + (next + Flatten(after))
  {
    var x, y := pic + between[..d], between[d..] + next;
    assert ([x, y] + after)[1..] == [y] + after && ([y] + after)[1..] == after;
    assert between[..d] + between[d..] == between;
  }

  /** For example, parameter sets between a slice and an IDR picture without a delimiter: the keyframe lacks them. */
  lemma ParameterSetsStayBehind(slice: Coded, sets: Coded, idr: Coded)
    requires slice.Clean() && sets.Clean() && idr.Clean()
    requires slice.IsSlice() && idr.IsIdr() && idr.Opens()
    requires !sets.IsDelimiter() && !sets.IsSlice()
    ensures AllClean([slice, sets]) && AllClean([idr])
    ensures AllUnits(Mux([slice, sets, idr])) == [UnitOf([slice, sets]), UnitOf([idr])]
  {
    hide AllUnits, Mux, UnitOf, Picture, Pictures, Coded.Opens, Coded.IsSlice, Coded.IsDelimiter;
    PictureOfOne(slice);
    PictureOfOne(idr);
    assert [[idr]] + [] == [[idr]];
    BetweenPictures([slice], [sets], [idr], []);
    assert FirstDelimiter([sets]) == 1;
    assert [slice] + [sets][..1] == [slice, sets] && [sets][1..] + [idr] == [idr];
    assert [[slice, sets], [idr]] + [] == [[slice, sets], [idr]];
    TwoUnits([slice, sets], [idr]);
    assert [slice] + [sets] + ([idr] + Flatten([])) == [slice, sets, idr];
  }

  lemma PictureOfOne(slice: Coded)
    requires slice.Clean() && slice.IsSlice()
    ensures Picture([slice]) && Pictures([[slice]])
  {
    assert [slice][0].IsSlice();
  }

  lemma TwoUnits(a: seq<Coded>, b: seq<Coded>)
    requires AllClean(a) && AllClean(b)
    ensures UnitsOf([a, b]) == [UnitOf(a), UnitOf(b)]
  {
    hide StartCodeLen, UnitOf, AllClean;
    assert [a, b][1..] == [b] && [b][1..] == [];
    assert UnitsOf([b]) == [UnitOf(b)] + UnitsOf([b][1..]);
  }
}
