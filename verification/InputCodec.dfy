/** The 17-byte controller frame: the host's codec, the browser's, and how they compare. Axes are exact reals. */
module InputCodec {
  import opened Common

  type Uint32 = n: int | 0 <= n < 0x1_0000_0000
  type Int16 = n: int | -32768 <= n < 32768

  const WIRE_VERSION: Byte := 2
  const WIRE_SIZE := 17
  const AXIS_SCALE := 32767

  datatype Command = Command(buttons: Uint32, lx: real, ly: real, rx: real, ry: real, number: Uint32)

  datatype Decoded = Ok(cmd: Command) | WrongLength | WrongVersion

  // ---- Integers on the wire ------------------------------------------------

  type Uint16 = n: int | 0 <= n < 65536

  /** Two bytes, low one first. */
  function Bytes(u: Uint16): (b: seq<Byte>)
    ensures |b| == 2
  {
    [u % 256, u / 256]
  }

  function Word(lo: Byte, hi: Byte): Uint16 { lo + 256 * hi }

  lemma WordRoundTrip(u: Uint16, lo: Byte, hi: Byte)
    ensures Word(Bytes(u)[0], Bytes(u)[1]) == u
    ensures Bytes(Word(lo, hi)) == [lo, hi]
  {
  }

  function Le16(n: Int16): (b: seq<Byte>)
    ensures |b| == 2
  {
    Bytes(if n < 0 then n + 65536 else n)
  }

  function FromLe16(lo: Byte, hi: Byte): Int16 {
    if Word(lo, hi) >= 32768 then Word(lo, hi) - 65536 else Word(lo, hi)
  }

  function Le32(n: Uint32): (b: seq<Byte>)
    ensures |b| == 4
  {
    Bytes(n % 65536) + Bytes(n / 65536)
  }

  function FromLe32(b0: Byte, b1: Byte, b2: Byte, b3: Byte): Uint32 { Word(b0, b1) + 65536 * Word(b2, b3) }

  lemma Le16RoundTrip(n: Int16, lo: Byte, hi: Byte)
    ensures FromLe16(Le16(n)[0], Le16(n)[1]) == n
    ensures Le16(FromLe16(lo, hi)) == [lo, hi]
  {
    WordRoundTrip(if n < 0 then n + 65536 else n, lo, hi);
  }

  lemma Le32Decode(n: Uint32)
    ensures FromLe32(Le32(n)[0], Le32(n)[1], Le32(n)[2], Le32(n)[3]) == n
  {
    WordRoundTrip(n % 65536, 0, 0);
    WordRoundTrip(n / 65536, 0, 0);
  }

  lemma Halves(lo: int, hi: int)
    requires 0 <= lo < 65536
    ensures (lo + 65536 * hi) % 65536 == lo && (lo + 65536 * hi) / 65536 == hi
  {
  }

  lemma Le32Encode(b0: Byte, b1: Byte, b2: Byte, b3: Byte)
    ensures Le32(FromLe32(b0, b1, b2, b3)) == [b0, b1, b2, b3]
  {
    Halves(Word(b0, b1), Word(b2, b3));
    WordRoundTrip(0, b0, b1);
    WordRoundTrip(0, b2, b3);
  }

  // ---- Axes ----------------------------------------------------------------

  function Clamp(x: real, bound: real): real
    requires bound >= 0.0
  {
    if x > bound then bound else if x < -bound then -bound else x
  }

  /** Nearest integer, ties away from zero: add or subtract a half, cut toward zero. */
  function RoundAway(x: real): int { if x >= 0.0 then (x + 0.5).Floor else -(0.5 - x).Floor }

  /** Nearest integer, ties upward, as the browser rounds. */
  function RoundUp(x: real): int { (x + 0.5).Floor }

  /** The host clamps, then rounds. */
  function HostAxis(v: real): (r: Int16)
    ensures -AXIS_SCALE <= r <= AXIS_SCALE
  {
    RoundAway(Clamp(v * AXIS_SCALE as real, AXIS_SCALE as real))
  }

  /** The browser rounds, then clamps. */
  function BrowserAxis(v: real): (r: Int16)
    ensures -AXIS_SCALE <= r <= AXIS_SCALE
  {
    var scaled := RoundUp(v * AXIS_SCALE as real);
    if scaled > AXIS_SCALE then AXIS_SCALE else if scaled < -AXIS_SCALE then -AXIS_SCALE else scaled
  }

  function AxisOf(n: Int16): real { if n <= -AXIS_SCALE then -1.0 else n as real / AXIS_SCALE as real }

  /** The asymmetric extreme is the only value that does not survive. */
  function Symmetric(n: Int16): Int16 { if n == -32768 then -32767 else n }

  lemma AxisRoundTrip(n: Int16)
    ensures HostAxis(AxisOf(n)) == Symmetric(n)
  {
    if n > -AXIS_SCALE {
      assert AxisOf(n) * AXIS_SCALE as real == n as real;
      assert (n as real + 0.5).Floor == n && (0.5 - n as real).Floor == -n;
    }
  }

  /** The host's axis is the integer nearest to 32767 times the clamped value, ties away from zero. */
  lemma HostAxisNearest(v: real)
    ensures var x := 32767.0 * Clamp(v, 1.0);
            && -0.5 <= HostAxis(v) as real - x <= 0.5
            && (HostAxis(v) as real - x == -0.5 ==> x < 0.0) && (HostAxis(v) as real - x == 0.5 ==> x > 0.0)
  {
    var x := Clamp(v * AXIS_SCALE as real, AXIS_SCALE as real);
    assert x == 32767.0 * Clamp(v, 1.0);
  }

  /** The browser's is the nearest too, ties upward except at the lower end. */
  lemma BrowserAxisNearest(v: real)
    ensures var x := 32767.0 * Clamp(v, 1.0); -0.5 < BrowserAxis(v) as real - x <= 0.5
  {
    var y := v * AXIS_SCALE as real;
    assert y == 32767.0 * v;
    if v > 1.0 {
      assert y > 32767.0;
    } else if v < -1.0 {
      assert y < -32767.0;
    }
  }

  /** Quantisation costs at most half a step, 1/65534. */
  lemma AxisError(v: real)
    ensures -1.0 / 65534.0 <= AxisOf(HostAxis(v)) - Clamp(v, 1.0) <= 1.0 / 65534.0
  {
    var x := Clamp(v * AXIS_SCALE as real, AXIS_SCALE as real);
    assert x == Clamp(v, 1.0) * AXIS_SCALE as real;
    assert -0.5 <= RoundAway(x) as real - x <= 0.5;
  }

  /** Strictly between the extremes, below zero, halfway between two integers. */
  ghost predicate NegativeTie(v: real) {
    var x := v * AXIS_SCALE as real;
    -(AXIS_SCALE as real) < x < 0.0 && (x + 0.5).Floor as real == x + 0.5
  }

  lemma RoundingsDiffer(x: real)
    ensures RoundAway(x) == RoundUp(x) <==> !(x < 0.0 && (x + 0.5).Floor as real == x + 0.5)
  {
    if x < 0.0 {
      var f := (x + 0.5).Floor;
      if f as real == x + 0.5 {
        assert 0.5 - x == (1 - f) as real;
      } else {
        assert (0.5 - x).Floor == -f;
      }
    }
  }

  lemma AxesAgree(v: real)
    ensures HostAxis(v) == BrowserAxis(v) <==> !NegativeTie(v)
  {
    RoundingsDiffer(v * AXIS_SCALE as real);
  }

  // ---- Frames --------------------------------------------------------------

  function Frame(buttons: Uint32, lx: Int16, ly: Int16, rx: Int16, ry: Int16, number: Uint32): (b: seq<Byte>)
    ensures |b| == WIRE_SIZE
  {
    [WIRE_VERSION] + Le32(buttons) + Le16(lx) + Le16(ly) + Le16(rx) + Le16(ry) + Le32(number)
  }

  function Encoded(c: Command): seq<Byte> {
    Frame(c.buttons, HostAxis(c.lx), HostAxis(c.ly), HostAxis(c.rx), HostAxis(c.ry), c.number)
  }

  function BrowserEncoded(c: Command): seq<Byte> {
    Frame(c.buttons, BrowserAxis(c.lx), BrowserAxis(c.ly), BrowserAxis(c.rx), BrowserAxis(c.ry), c.number)
  }

  function Decode(b: seq<Byte>): Decoded {
    if |b| != WIRE_SIZE then WrongLength
    else if b[0] != WIRE_VERSION then WrongVersion
    else Ok(Command(FromLe32(b[1], b[2], b[3], b[4]),
                    AxisOf(FromLe16(b[5], b[6])), AxisOf(FromLe16(b[7], b[8])),
                    AxisOf(FromLe16(b[9], b[10])), AxisOf(FromLe16(b[11], b[12])),
                    FromLe32(b[13], b[14], b[15], b[16])))
  }

  /** Writes the frame field by field into a fresh buffer. */
  method EncodeInputCommand(c: Command) returns (buf: array<Byte>)
    ensures fresh(buf) && buf[..] == Encoded(c)
  {
    buf := new Byte[WIRE_SIZE](i => 0);
    buf[0] := WIRE_VERSION;
    assert buf[..1] == [WIRE_VERSION];
    PutUint32(buf, 1, c.buttons);
    PutAxes(buf, HostAxis(c.lx), HostAxis(c.ly), HostAxis(c.rx), HostAxis(c.ry));
    PutUint32(buf, 13, c.number);
    assert buf[..WIRE_SIZE] == buf[..];
  }

  method PutAxes(buf: array<Byte>, lx: Int16, ly: Int16, rx: Int16, ry: Int16)
    requires buf.Length == WIRE_SIZE
    modifies buf
    ensures buf[..13] == old(buf[..5]) + Le16(lx) + Le16(ly) + Le16(rx) + Le16(ry)
  {
    PutInt16(buf, 5, lx);
    PutInt16(buf, 7, ly);
    PutInt16(buf, 9, rx);
    PutInt16(buf, 11, ry);
  }

  method PutUint32(buf: array<Byte>, at: nat, n: Uint32)
    requires at + 4 <= buf.Length
    modifies buf
    ensures buf[..at + 4] == old(buf[..at]) + Le32(n) && buf[at + 4..] == old(buf[at + 4..])
  {
    var lo, hi := n % 65536, n / 65536;
    buf[at], buf[at + 1], buf[at + 2], buf[at + 3] := lo % 256, lo / 256, hi % 256, hi / 256;
  }

  method PutInt16(buf: array<Byte>, at: nat, n: Int16)
    requires at + 2 <= buf.Length
    modifies buf
    ensures buf[..at + 2] == old(buf[..at]) + Le16(n) && buf[at + 2..] == old(buf[at + 2..])
  {
    var u := if n < 0 then n + 65536 else n;
    buf[at], buf[at + 1] := u % 256, u / 256;
  }

  lemma FrameFields(buttons: Uint32, lx: Int16, ly: Int16, rx: Int16, ry: Int16, number: Uint32)
    ensures Decode(Frame(buttons, lx, ly, rx, ry, number)) ==
            Ok(Command(buttons, AxisOf(lx), AxisOf(ly), AxisOf(rx), AxisOf(ry), number))
  {
    var b := Frame(buttons, lx, ly, rx, ry, number);
    Le32Decode(buttons);
    Le32Decode(number);
    Le16RoundTrip(lx, 0, 0);
    Le16RoundTrip(ly, 0, 0);
    Le16RoundTrip(rx, 0, 0);
    Le16RoundTrip(ry, 0, 0);
    assert b[1..5] == Le32(buttons) && b[13..17] == Le32(number);
    assert b[5..7] == Le16(lx) && b[7..9] == Le16(ly) && b[9..11] == Le16(rx) && b[11..13] == Le16(ry);
  }

  /** Encoding then decoding keeps buttons and number exactly and each clamped axis to 1/65534. */
  lemma EncodeDecode(c: Command)
    ensures Decode(Encoded(c)).Ok?
    ensures var d := Decode(Encoded(c)).cmd;
            && d.buttons == c.buttons && d.number == c.number
            && -1.0 / 65534.0 <= d.lx - Clamp(c.lx, 1.0) <= 1.0 / 65534.0
            && -1.0 / 65534.0 <= d.ly - Clamp(c.ly, 1.0) <= 1.0 / 65534.0
            && -1.0 / 65534.0 <= d.rx - Clamp(c.rx, 1.0) <= 1.0 / 65534.0
            && -1.0 / 65534.0 <= d.ry - Clamp(c.ry, 1.0) <= 1.0 / 65534.0
  {
    FrameFields(c.buttons, HostAxis(c.lx), HostAxis(c.ly), HostAxis(c.rx), HostAxis(c.ry), c.number);
    AxisError(c.lx);
    AxisError(c.ly);
    AxisError(c.rx);
    AxisError(c.ry);
  }

  /** Every 17-byte buffer with the right version is the frame of its fields. */
  lemma FrameOfFields(b: seq<Byte>)
    requires |b| == WIRE_SIZE && b[0] == WIRE_VERSION
    ensures b == Frame(FromLe32(b[1], b[2], b[3], b[4]), FromLe16(b[5], b[6]), FromLe16(b[7], b[8]),
                       FromLe16(b[9], b[10]), FromLe16(b[11], b[12]), FromLe32(b[13], b[14], b[15], b[16]))
  {
    hide Le32, Le16, FromLe32, FromLe16;
    Le32Encode(b[1], b[2], b[3], b[4]);
    Le32Encode(b[13], b[14], b[15], b[16]);
    Le16RoundTrip(0, b[5], b[6]);
    Le16RoundTrip(0, b[7], b[8]);
    Le16RoundTrip(0, b[9], b[10]);
    Le16RoundTrip(0, b[11], b[12]);
  }

  /** Decoding then encoding gives back every valid frame, except that an axis of -32768 becomes -32767. */
  lemma DecodeEncode(b: seq<Byte>)
    requires |b| == WIRE_SIZE && b[0] == WIRE_VERSION
    ensures Decode(b).Ok?
    ensures Encoded(Decode(b).cmd) ==
            Frame(FromLe32(b[1], b[2], b[3], b[4]),
                  Symmetric(FromLe16(b[5], b[6])), Symmetric(FromLe16(b[7], b[8])),
                  Symmetric(FromLe16(b[9], b[10])), Symmetric(FromLe16(b[11], b[12])),
                  FromLe32(b[13], b[14], b[15], b[16]))
  {
    AxisRoundTrip(FromLe16(b[5], b[6]));
    AxisRoundTrip(FromLe16(b[7], b[8]));
    AxisRoundTrip(FromLe16(b[9], b[10]));
    AxisRoundTrip(FromLe16(b[11], b[12]));
  }

  /** So a valid frame is reproduced bit for bit exactly when no axis holds -32768. */
  lemma DecodeEncodeIdentity(b: seq<Byte>)
    requires |b| == WIRE_SIZE && b[0] == WIRE_VERSION
    ensures Decode(b).Ok?
    ensures Encoded(Decode(b).cmd) == b <==>
            -32768 !in {FromLe16(b[5], b[6]), FromLe16(b[7], b[8]), FromLe16(b[9], b[10]), FromLe16(b[11], b[12])}
  {
    DecodeEncode(b);
    FrameOfFields(b);
    var x, y, z, w := FromLe16(b[5], b[6]), FromLe16(b[7], b[8]), FromLe16(b[9], b[10]), FromLe16(b[11], b[12]);
    FrameInjective(FromLe32(b[1], b[2], b[3], b[4]), FromLe32(b[13], b[14], b[15], b[16]),
                   x, y, z, w, Symmetric(x), Symmetric(y), Symmetric(z), Symmetric(w));
  }

  lemma FrameInjective(buttons: Uint32, number: Uint32,
                       lx: Int16, ly: Int16, rx: Int16, ry: Int16, lx': Int16, ly': Int16, rx': Int16, ry': Int16)
    ensures Frame(buttons, lx, ly, rx, ry, number) == Frame(buttons, lx', ly', rx', ry', number) <==>
            lx == lx' && ly == ly' && rx == rx' && ry == ry'
  {
    var a, b := Frame(buttons, lx, ly, rx, ry, number), Frame(buttons, lx', ly', rx', ry', number);
    assert a[5..7] == Le16(lx) && a[7..9] == Le16(ly) && a[9..11] == Le16(rx) && a[11..13] == Le16(ry);
    assert b[5..7] == Le16(lx') && b[7..9] == Le16(ly') && b[9..11] == Le16(rx') && b[11..13] == Le16(ry');
    Le16Injective(lx, lx');
    Le16Injective(ly, ly');
    Le16Injective(rx, rx');
    Le16Injective(ry, ry');
  }

  lemma Le16Injective(m: Int16, n: Int16)
    ensures Le16(m) == Le16(n) <==> m == n
  {
    Le16RoundTrip(m, 0, 0);
    Le16RoundTrip(n, 0, 0);
  }

  /** The browser's frame and the host's are the same bytes exactly when no axis is a negative tie. */
  lemma EncodersAgree(c: Command)
    ensures BrowserEncoded(c) == Encoded(c) <==>
            !NegativeTie(c.lx) && !NegativeTie(c.ly) && !NegativeTie(c.rx) && !NegativeTie(c.ry)
  {
    AxesAgree(c.lx);
    AxesAgree(c.ly);
    AxesAgree(c.rx);
    AxesAgree(c.ry);
    FrameInjective(c.buttons, c.number, BrowserAxis(c.lx), BrowserAxis(c.ly), BrowserAxis(c.rx), BrowserAxis(c.ry),
                   HostAxis(c.lx), HostAxis(c.ly), HostAxis(c.rx), HostAxis(c.ry));
  }

  // ---- The frame, byte by byte ---------------------------------------------

  /** Little-endian numbers of two and four bytes. */
  ghost function Two(lo: int, hi: int): int { lo + 256 * hi }

  ghost function Four(b0: int, b1: int, b2: int, b3: int): int { b0 + 256 * b1 + 65536 * b2 + 16777216 * b3 }

  /** The two's complement of a number as an unsigned 16-bit number. */
  ghost function Unsigned(n: int): int { if n < 0 then n + 65536 else n }

  /** Every byte of the host's frame: the version, then little-endian buttons, four axes and the number. */
  lemma FrameBytes(c: Command)
    ensures var b := Encoded(c);
            && |b| == 17 && b[0] == 2
            && c.buttons == Four(b[1], b[2], b[3], b[4])
            && Unsigned(HostAxis(c.lx)) == Two(b[5], b[6]) && Unsigned(HostAxis(c.ly)) == Two(b[7], b[8])
            && Unsigned(HostAxis(c.rx)) == Two(b[9], b[10]) && Unsigned(HostAxis(c.ry)) == Two(b[11], b[12])
            && c.number == Four(b[13], b[14], b[15], b[16])
  {
    hide HostAxis;
    var b := Encoded(c);
    assert b[1..5] == Le32(c.buttons) && b[13..17] == Le32(c.number);
    assert b[5..7] == Le16(HostAxis(c.lx)) && b[7..9] == Le16(HostAxis(c.ly));
    assert b[9..11] == Le16(HostAxis(c.rx)) && b[11..13] == Le16(HostAxis(c.ry));
    Le32Bytes(c.buttons);
    Le32Bytes(c.number);
  }

  lemma Le32Bytes(n: Uint32)
    ensures var b := Le32(n); n == Four(b[0], b[1], b[2], b[3])
  {
  }

  /** A 32767th of the two's complement number in the bytes, at least -1. */
  ghost function AxisAt(lo: int, hi: int): real {
    var n := if Two(lo, hi) < 32768 then Two(lo, hi) else Two(lo, hi) - 65536;
    if n == -32768 then -1.0 else n as real / 32767.0
  }

  lemma AxisDecodes(lo: Byte, hi: Byte)
    ensures AxisOf(FromLe16(lo, hi)) == AxisAt(lo, hi)
  {
  }

  /** What a buffer decodes to: an error for a wrong length or version, else the fields at their places. */
  lemma DecodeExact(b: seq<Byte>)
    ensures Decode(b) == WrongLength <==> |b| != 17
    ensures Decode(b) == WrongVersion <==> |b| == 17 && b[0] != 2
    ensures |b| == 17 && b[0] == 2 ==>
              Decode(b) == Ok(Command(FromLe32(b[1], b[2], b[3], b[4]), AxisAt(b[5], b[6]), AxisAt(b[7], b[8]),
                                      AxisAt(b[9], b[10]), AxisAt(b[11], b[12]), FromLe32(b[13], b[14], b[15], b[16])))
    ensures |b| == 17 ==> FromLe32(b[1], b[2], b[3], b[4]) == Four(b[1], b[2], b[3], b[4])
                          && FromLe32(b[13], b[14], b[15], b[16]) == Four(b[13], b[14], b[15], b[16])
  {
    hide AxisOf, FromLe16, AxisAt;
    if |b| == 17 {
      AxisDecodes(b[5], b[6]);
      AxisDecodes(b[7], b[8]);
      AxisDecodes(b[9], b[10]);
      AxisDecodes(b[11], b[12]);
    }
  }
}
