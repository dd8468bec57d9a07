/** What a received frame says, read off the bytes on the wire one by one, and the examples of RFC 6455. */
module FrameReading {
  import opened Bytes
  import opened StreamCursor
  import opened FrameCodec

  /** The number of bytes between the two header bytes and the key, by the 7-bit length. */
  function ExtensionWidth(field: nat): nat {
    if field == 126 then 2 else if field == 127 then 8 else 0
  }

  /** The payload length, by the 7-bit length and the bytes behind the header. */
  function Spelled(field: nat, behind: bytes): nat
    requires ExtensionWidth(field) <= |behind|
  {
    if field == 126 then 256 * behind[0] as int + behind[1] as int
    else if field == 127 then Number(behind[..8])
    else field
  }

  /** Where key and payload stand behind the length, and that the payload is what stands there, unmasked bit by
      bit if the frame is masked. */
  predicate PayloadStands(behind: bytes, masked: bool, payload: bytes) {
    if masked then 4 + |payload| <= |behind| && Unmasks(behind[4..], behind[..4], payload)
    else |payload| <= |behind| && payload == behind[..|payload|]
  }

  /** Where the parts of the first frame of a stream stand. */
  predicate ReadsAs(stream: bytes, f: Frame) {
    |stream| >= 2 &&
    var b0, b1, behind := stream[0] as int, stream[1] as int, stream[2..];
    && f.fin == (b0 >= 128) && f.opcode == b0 % 16 && f.masked == (b1 >= 128)
    && ExtensionWidth(b1 % 128) <= |behind| && |f.payload| == Spelled(b1 % 128, behind)
    && PayloadStands(behind[ExtensionWidth(b1 % 128)..], f.masked, f.payload)
  }

  /** The number that eight bytes spell, most significant first. */
  function Number(b: bytes): nat
    requires |b| == 8
  {
    0x1_0000_0000 * (0x100_0000 * b[0] as int + 0x1_0000 * b[1] as int + 0x100 * b[2] as int + b[3] as int)
    + (0x100_0000 * b[4] as int + 0x1_0000 * b[5] as int + 0x100 * b[6] as int + b[7] as int)
  }

  lemma ValueOfOne(b: bytes)
    requires |b| == 1
    ensures Value(b) == b[0] as int
  {
    assert b[..0] == [];
  }

  lemma ValueOfTwo(b: bytes)
    requires |b| == 2
    ensures Value(b) == 256 * b[0] as int + b[1] as int
  {
    ValueOfOne(b[..1]);
  }

  lemma ValueOfFour(b: bytes)
    requires |b| == 4
    ensures Value(b) == 0x100_0000 * b[0] as int + 0x1_0000 * b[1] as int + 0x100 * b[2] as int + b[3] as int
  {
    assert b[..3][..2] == b[..2];
    ValueOfTwo(b[..2]);
    assert Value(b[..3]) == 256 * Value(b[..2]) + b[2] as int;
  }

  lemma ValueOfEight(b: bytes)
    requires |b| == 8
    ensures Value(b) == Number(b)
  {
    ValueOfFour(b[..4]);
    assert b[..5][..4] == b[..4] && b[..6][..5] == b[..5] && b[..7][..6] == b[..6];
    assert Value(b[..5]) == 256 * Value(b[..4]) + b[4] as int;
    assert Value(b[..6]) == 256 * Value(b[..5]) + b[5] as int;
    assert Value(b[..7]) == 256 * Value(b[..6]) + b[6] as int;
  }

  lemma LengthReadsAs(c: Cursor, field: nat)
    requires field < 128 && ReceiveLength(c, field).0.Some?
    ensures var (len, c') := ReceiveLength(c, field);
            && ExtensionWidth(field) <= |c.rest| && len.value == Spelled(field, c.rest)
            && c'.rest == c.rest[ExtensionWidth(field)..]
  {
    if field == 126 {
      ValueOfTwo(c.rest[..2]);
    } else if field == 127 {
      ValueOfEight(c.rest[..8]);
    }
  }

  lemma BodyReadsAs(c: Cursor, masked: bool, len: nat)
    requires ReceiveBody(c, masked, len).0.Some?
    ensures var payload := ReceiveBody(c, masked, len).0.value;
            |payload| == len && PayloadStands(c.rest, masked, payload)
  {
    if masked {
      var wire := c.rest[4..];
      MaskedUnmasks(wire[..len], c.rest[..4]);
      forall i, k | 0 <= i < len && 0 <= k < 8 ensures BitUnmasked(wire[i], c.rest[..4][i % 4], ReceiveBody(c, masked, len).0.value[i], k) {
        assert wire[..len][i] == wire[i];
      }
    }
  }

  /** What is received is what stands on the wire. */
  lemma ReceiveReadsAs(c: Cursor)
    requires Receive(c).0.Some?
    ensures ReadsAs(c.rest, Receive(c).0.value)
  {
    var (header, c1) := ReadExact(c, 2);
    var b1 := header[1] as int;
    var (len, c2) := ReceiveLength(c1, b1 % 128);
    LengthReadsAs(c1, b1 % 128);
    BodyReadsAs(c2, b1 >= 128, len.value);
  }

  // ----- the examples of section 5.7 of RFC 6455 -----

  const HELLO: bytes := ['H', 'e', 'l', 'l', 'o']

  /** A number from its binary digits, the most significant first. */
  function FromBits(d: seq<bool>): nat {
    if d == [] then 0 else 2 * FromBits(d[..|d| - 1]) + if d[|d| - 1] then 1 else 0
  }

  function Differ(d: seq<bool>, e: seq<bool>): (r: seq<bool>)
    requires |d| == |e|
    ensures |r| == |d|
  {
    seq(|d|, i requires 0 <= i < |d| => d[i] != e[i])
  }

  lemma {:induction false} XorOfBits(d: seq<bool>, e: seq<bool>)
    requires |d| == |e|
    ensures XorBits(FromBits(d), FromBits(e), |d|) == FromBits(Differ(d, e))
  {
    if d != [] {
      var n := |d| - 1;
      XorOfBits(d[..n], e[..n]);
      assert Differ(d, e)[..n] == Differ(d[..n], e[..n]);
      assert FromBits(d) / 2 == FromBits(d[..n]) && FromBits(e) / 2 == FromBits(e[..n]);
    }
  }

  function Digit(b: bool): nat { if b then 1 else 0 }

  lemma FromFour(d: seq<bool>)
    requires |d| == 4
    ensures FromBits(d) == 8 * Digit(d[0]) + 4 * Digit(d[1]) + 2 * Digit(d[2]) + Digit(d[3])
  {
    assert d[..3][..2] == d[..2] && d[..2][..1] == d[..1] && d[..1][..0] == [];
    assert FromBits(d[..1]) == Digit(d[0]);
    assert FromBits(d[..2]) == 2 * FromBits(d[..1]) + Digit(d[1]);
    assert FromBits(d[..3]) == 2 * FromBits(d[..2]) + Digit(d[2]);
  }

  lemma {:induction false} FromConcat(d: seq<bool>, e: seq<bool>)
    requires |e| == 4
    ensures FromBits(d + e) == 16 * FromBits(d) + FromBits(e)
  {
    var f := d + e;
    var n := |d|;
    assert f[..n + 4] == f && f[..n + 3][..n + 2] == f[..n + 2] && f[..n + 2][..n + 1] == f[..n + 1] && f[..n + 1][..n] == d;
    assert FromBits(f[..n + 1]) == 2 * FromBits(d) + Digit(e[0]);
    assert FromBits(f[..n + 2]) == 2 * FromBits(f[..n + 1]) + Digit(e[1]);
    assert FromBits(f[..n + 3]) == 2 * FromBits(f[..n + 2]) + Digit(e[2]);
    FromFour(e);
  }

  /** Hexadecimal digits are taken apart and put together four bits at a time. */
  lemma XorHex(x: nat, x1: seq<bool>, x0: seq<bool>, y: nat, y1: seq<bool>, y0: seq<bool>)
    requires |x1| == 4 && |x0| == 4 && |y1| == 4 && |y0| == 4
    requires x == 16 * FromBits(x1) + FromBits(x0) && y == 16 * FromBits(y1) + FromBits(y0)
    ensures XorBits(x, y, 8) == 16 * FromBits(Differ(x1, y1)) + FromBits(Differ(x0, y0))
  {
    FromConcat(x1, x0);
    FromConcat(y1, y0);
    XorOfBits(x1 + x0, y1 + y0);
    assert Differ(x1 + x0, y1 + y0) == Differ(x1, y1) + Differ(x0, y0);
    FromConcat(Differ(x1, y1), Differ(x0, y0));
  }

  /** The hexadecimal digits. */
  function Hex(n: nat): (d: seq<bool>)
    requires n < 16
    ensures |d| == 4 && FromBits(d) == n
  {
    var d := [n / 8 == 1, n / 4 % 2 == 1, n / 2 % 2 == 1, n % 2 == 1];
    FromFour(d);
    d
  }

  lemma XorDigits(x: nat, x1: nat, x0: nat, y: nat, y1: nat, y0: nat)
    requires x1 < 16 && x0 < 16 && y1 < 16 && y0 < 16 && x == 16 * x1 + x0 && y == 16 * y1 + y0
    ensures XorBits(x, y, 8) == 16 * HexDiffer(x1, y1) + HexDiffer(x0, y0)
  {
    XorHex(x, Hex(x1), Hex(x0), y, Hex(y1), Hex(y0));
    DigitsDiffer(x1, y1);
    DigitsDiffer(x0, y0);
  }

  lemma DigitsDiffer(a: nat, b: nat)
    requires a < 16 && b < 16
    ensures FromBits(Differ(Hex(a), Hex(b))) == HexDiffer(a, b)
  {
    FromFour(Differ(Hex(a), Hex(b)));
  }

  function HexDiffer(a: nat, b: nat): nat {
    8 * (if a / 8 == b / 8 then 0 else 1) + 4 * (if a / 4 % 2 == b / 4 % 2 then 0 else 1)
    + 2 * (if a / 2 % 2 == b / 2 % 2 then 0 else 1) + if a % 2 == b % 2 then 0 else 1
  }

  /** The masked example: payload 7f 9f 4d 51 58 under the key 37 fa 21 3d. */
  predicate IsExample(wire: bytes, key: bytes) {
    && |wire| == 5 && wire[0] as int == 0x7f && wire[1] as int == 0x9f && wire[2] as int == 0x4d
    && wire[3] as int == 0x51 && wire[4] as int == 0x58
    && |key| == 4 && key[0] as int == 0x37 && key[1] as int == 0xfa && key[2] as int == 0x21 && key[3] as int == 0x3d
  }

  lemma ExampleFront(wire: bytes, key: bytes)
    requires IsExample(wire, key)
    ensures var m := Masked(wire, key);
            m[0] == 'H' && m[1] == 'e'
  {
    ByteUnmasked(wire, key, 0, 7, 15, 3, 7, 'H');
    ByteUnmasked(wire, key, 1, 9, 15, 15, 10, 'e');
  }

  lemma ExampleBack(wire: bytes, key: bytes)
    requires IsExample(wire, key)
    ensures var m := Masked(wire, key);
            m[2] == 'l' && m[3] == 'l' && m[4] == 'o'
  {
    ByteUnmasked(wire, key, 2, 4, 13, 2, 1, 'l');
    ByteUnmasked(wire, key, 3, 5, 1, 3, 13, 'l');
    ByteUnmasked(wire, key, 4, 5, 8, 3, 7, 'o');
  }

  lemma ByteUnmasked(wire: bytes, key: bytes, i: nat, x1: nat, x0: nat, y1: nat, y0: nat, clear: byte)
    requires i < |wire| && |key| == 4 && x1 < 16 && x0 < 16 && y1 < 16 && y0 < 16
    requires wire[i] as int == 16 * x1 + x0 && key[i % 4] as int == 16 * y1 + y0
    requires clear as int == 16 * HexDiffer(x1, y1) + HexDiffer(x0, y0)
    ensures Masked(wire, key)[i] == clear
  {
    XorDigits(wire[i] as int, x1, x0, key[i % 4] as int, y1, y0);
  }

  lemma ExampleIsHello(wire: bytes, key: bytes)
    requires IsExample(wire, key)
    ensures Masked(wire, key) == HELLO
  {
    ExampleFront(wire, key);
    ExampleBack(wire, key);
  }

  /** Any short masked frame: header, key and five masked bytes. */
  lemma MaskedFive(key: bytes, wire: bytes, t: bytes)
    requires |wire| == 5 && |key| == 4
    ensures Receive(Cursor([Octet(0x81), Octet(0x85)] + (key + (wire + t)), false))
         == (Some(Frame(true, 1, true, Masked(wire, key))), Cursor(t, false))
  {
    TakeExact([Octet(0x81), Octet(0x85)], key + (wire + t));
    TakeExact(key, wire + t);
    TakeExact(wire, t);
  }

  /** A masked frame 81 85 with the key, and what follows. */
  lemma MaskedHello(key: bytes, wire: bytes, t: bytes)
    requires IsExample(wire, key)
    ensures Receive(Cursor([Octet(0x81), Octet(0x85)] + (key + (wire + t)), false))
         == (Some(Frame(true, 1, true, HELLO)), Cursor(t, false))
  {
    ExampleIsHello(wire, key);
    MaskedFive(key, wire, t);
  }

  lemma PlainFive(payload: bytes, t: bytes)
    requires |payload| == 5
    ensures Receive(Cursor([Octet(0x81), Octet(0x05)] + (payload + t), false)) == (Some(Frame(true, 1, false, payload)), Cursor(t, false))
  {
    TakeExact([Octet(0x81), Octet(0x05)], payload + t);
    TakeExact(payload, t);
  }

  /** An unmasked frame 81 05. */
  lemma PlainHello(t: bytes)
    ensures Receive(Cursor([Octet(0x81), Octet(0x05)] + (HELLO + t), false)) == (Some(Frame(true, 1, false, HELLO)), Cursor(t, false))
  {
    PlainFive(HELLO, t);
  }

  /** 256 bytes behind 82 7e 01 00, and 64 KiB behind 82 7f 00 00 00 00 00 01 00 00. */
  lemma LongExamples(payload: bytes, t: bytes)
    ensures |payload| == 256 ==>
              Receive(Cursor([Octet(0x82), Octet(0x7e)] + ([Octet(1), Octet(0)] + (payload + t)), false))
              == (Some(Frame(true, 2, false, payload)), Cursor(t, false))
    ensures |payload| == 65536 ==>
              Receive(Cursor([Octet(0x82), Octet(0x7f)] + ([Octet(0), Octet(0), Octet(0), Octet(0), Octet(0), Octet(1), Octet(0), Octet(0)]
                                                           + (payload + t)), false))
              == (Some(Frame(true, 2, false, payload)), Cursor(t, false))
  {
    var two, eight := [Octet(1), Octet(0)], [Octet(0), Octet(0), Octet(0), Octet(0), Octet(0), Octet(1), Octet(0), Octet(0)];
    TakeExact([Octet(0x82), Octet(0x7e)], two + (payload + t));
    TakeExact([Octet(0x82), Octet(0x7f)], eight + (payload + t));
    TakeExact(two, payload + t);
    TakeExact(eight, payload + t);
    TakeExact(payload, t);
    ValueOfTwo(two);
    ValueOfEight(eight);
  }
}
