/** WebSocket base framing (section 5.2 of RFC 6455) and masking (section 5.3), as functions on byte strings. */
module FrameCodec {
  import opened Bytes
  import opened StreamCursor

  const MAX_PAYLOAD: nat := 10 * 1024 * 1024
  const TWO_64: nat := 0x1_0000_0000_0000_0000

  function Octet(n: int): byte
    requires 0 <= n < 256
  {
    n as char
  }

  // ----- exclusive or, bit by bit -----

  function Pow2(n: nat): nat { if n == 0 then 1 else 2 * Pow2(n - 1) }

  function XorBits(a: nat, b: nat, bits: nat): (r: nat)
    ensures r < Pow2(bits)
  {
    if bits == 0 then 0
    else (if a % 2 == b % 2 then 0 else 1) + 2 * XorBits(a / 2, b / 2, bits - 1)
  }

  function Xor(a: byte, b: byte): byte {
    assert Pow2(8) == 256;
    Octet(XorBits(a as int, b as int, 8))
  }

  lemma {:induction false} XorBitsTwice(a: nat, b: nat, bits: nat)
    requires a < Pow2(bits)
    ensures XorBits(XorBits(a, b, bits), b, bits) == a
  {
    if bits > 0 {
      XorBitsTwice(a / 2, b / 2, bits - 1);
      assert XorBits(a, b, bits) / 2 == XorBits(a / 2, b / 2, bits - 1);
    }
  }

  /** Bit k of a, counted from the least significant one. */
  function Bit(a: nat, k: nat): nat { if k == 0 then a % 2 else Bit(a / 2, k - 1) }

  /** Each bit of the result is set exactly when that bit is set in one operand and not in the other. */
  lemma {:induction false} XorAt(a: nat, b: nat, bits: nat, k: nat)
    requires k < bits
    ensures Bit(XorBits(a, b, bits), k) == if Bit(a, k) == Bit(b, k) then 0 else 1
  {
    assert XorBits(a, b, bits) / 2 == XorBits(a / 2, b / 2, bits - 1);
    if k > 0 {
      XorAt(a / 2, b / 2, bits - 1, k - 1);
    }
  }

  /** payload[i] ^= mask[i % 4] */
  function Masked(payload: bytes, key: bytes): (r: bytes)
    requires |key| == 4
    ensures |r| == |payload|
  {
    seq(|payload|, i requires 0 <= i < |payload| => Xor(payload[i], key[i % 4]))
  }

  /** Unmasking is masking again. */
  lemma MaskedTwice(payload: bytes, key: bytes)
    requires |key| == 4
    ensures Masked(Masked(payload, key), key) == payload
  {
    forall i | 0 <= i < |payload| ensures Masked(Masked(payload, key), key)[i] == payload[i] {
      assert Pow2(8) == 256;
      XorBitsTwice(payload[i] as int, key[i % 4] as int, 8);
    }
  }

  lemma XorByteAt(a: byte, b: byte, k: nat)
    requires k < 8
    ensures Bit(Xor(a, b) as int, k) == (Bit(a as int, k) + Bit(b as int, k)) % 2
  {
    assert Pow2(8) == 256;
    XorAt(a as int, b as int, 8, k);
    BitIsBinary(a as int, k);
    BitIsBinary(b as int, k);
  }

  lemma {:induction false} BitIsBinary(a: nat, k: nat)
    ensures Bit(a, k) == 0 || Bit(a, k) == 1
  {
    if k > 0 {
      BitIsBinary(a / 2, k - 1);
    }
  }

  /** Bit by bit, `clear` is `wire` under the key whose four bytes repeat. */
  predicate Unmasks(wire: bytes, key: bytes, clear: bytes)
    requires |key| == 4 && |clear| <= |wire|
  {
    forall i, k :: 0 <= i < |clear| && 0 <= k < 8 ==> BitUnmasked(wire[i], key[i % 4], clear[i], k)
  }

  predicate BitUnmasked(wire: byte, key: byte, clear: byte, k: nat) {
    Bit(clear as int, k) == (Bit(wire as int, k) + Bit(key as int, k)) % 2
  }

  lemma MaskedUnmasks(wire: bytes, key: bytes)
    requires |key| == 4
    ensures Unmasks(wire, key, Masked(wire, key))
  {
    forall i, k | 0 <= i < |wire| && 0 <= k < 8 ensures BitUnmasked(wire[i], key[i % 4], Masked(wire, key)[i], k) {
      XorByteAt(wire[i], key[i % 4], k);
    }
  }

  // ----- network byte order -----

  function Pow256(n: nat): nat { if n == 0 then 1 else 256 * Pow256(n - 1) }

  function BigEndian(n: nat, width: nat): (r: bytes)
    ensures |r| == width
  {
    if width == 0 then [] else BigEndian(n / 256, width - 1) + [Octet(n % 256)]
  }

  function Value(b: bytes): (n: nat)
    ensures n < Pow256(|b|)
  {
    if b == [] then 0 else 256 * Value(b[..|b| - 1]) + b[|b| - 1] as int
  }

  lemma {:induction false} ValueOfBigEndian(n: nat, width: nat)
    requires n < Pow256(width)
    ensures Value(BigEndian(n, width)) == n
  {
    if width > 0 {
      ValueOfBigEndian(n / 256, width - 1);
      var b := BigEndian(n, width);
      assert b[..width - 1] == BigEndian(n / 256, width - 1);
    }
  }

  lemma {:induction false} BigEndianOfValue(b: bytes)
    ensures BigEndian(Value(b), |b|) == b
  {
    if b != [] {
      BigEndianOfValue(b[..|b| - 1]);
      assert b == b[..|b| - 1] + [b[|b| - 1]];
    }
  }

  // ----- frames -----

  datatype Form = Short | Medium | Long

  /** A frame as it can stand on the wire: any FIN and RSV bits, any opcode, any key, any length form
      that can hold the length, shortest or not. */
  datatype WireFrame = WireFrame(fin: bool, rsv: nat, opcode: nat, key: Option<bytes>, form: Form, payload: bytes)
  {
    predicate Formed() {
      && rsv < 8 && opcode < 16
      && (key.Some? ==> |key.value| == 4)
      && Fits(form, |payload|)
    }

    /** And within the limit of the receiver. */
    predicate Valid() {
      Formed() && |payload| <= MAX_PAYLOAD
    }
  }

  /** What a receiver is told about a frame. */
  datatype Frame = Frame(fin: bool, opcode: nat, masked: bool, payload: bytes)

  function Seen(w: WireFrame): Frame {
    Frame(w.fin, w.opcode, w.key.Some?, w.payload)
  }

  predicate Fits(form: Form, len: nat) {
    match form
    case Short => len < 126
    case Medium => len < 65536
    case Long => len < TWO_64
  }

  function LengthField(form: Form, len: nat): (r: nat)
    requires Fits(form, len)
    ensures r < 128
  {
    match form
    case Short => len
    case Medium => 126
    case Long => 127
  }

  function Extension(form: Form, len: nat): bytes {
    match form
    case Short => []
    case Medium => BigEndian(len, 2)
    case Long => BigEndian(len, 8)
  }

  function Header(w: WireFrame): bytes
    requires w.Formed()
  {
    [Octet((if w.fin then 128 else 0) + 16 * w.rsv + w.opcode),
     Octet((if w.key.Some? then 128 else 0) + LengthField(w.form, |w.payload|))]
  }

  function KeyBytes(w: WireFrame): bytes {
    if w.key.Some? then w.key.value else []
  }

  function Body(w: WireFrame): bytes
    requires w.Formed()
  {
    if w.key.Some? then Masked(w.payload, w.key.value) else w.payload
  }

  function Encode(w: WireFrame): (r: bytes)
    requires w.Formed()
    ensures |r| >= 2
  {
    Header(w) + Extension(w.form, |w.payload|) + KeyBytes(w) + Body(w)
  }

  predicate AllFormed(ws: seq<WireFrame>) {
    forall i :: 0 <= i < |ws| ==> ws[i].Formed()
  }

  predicate AllValid(ws: seq<WireFrame>) {
    forall i :: 0 <= i < |ws| ==> ws[i].Valid()
  }

  function EncodeAll(ws: seq<WireFrame>): bytes
    requires AllFormed(ws)
  {
    if ws == [] then [] else Encode(ws[0]) + EncodeAll(ws[1..])
  }

  function SeenAll(ws: seq<WireFrame>): seq<Frame> {
    if ws == [] then [] else [Seen(ws[0])] + SeenAll(ws[1..])
  }

  /** The shortest form for a length, which is the one send_frame picks. */
  function Shortest(len: nat): Form {
    if len < 126 then Short else if len < 65536 then Medium else Long
  }

  function SentFrame(opcode: nat, payload: bytes): (w: WireFrame)
    ensures opcode < 16 && |payload| < TWO_64 ==> w.Formed()
  {
    WireFrame(true, 0, opcode, None, Shortest(|payload|), payload)
  }

  // ----- receiving, on a cursor -----

  function ReceiveLength(c: Cursor, field: nat): (Option<nat>, Cursor)
    requires field < 128
  {
    if field == 126 then
      var (ext, c') := ReadExact(c, 2);
      (if |ext| < 2 then None else Some(Value(ext)), c')
    else if field == 127 then
      var (ext, c') := ReadExact(c, 8);
      (if |ext| < 8 then None else Some(Value(ext)), c')
    else (Some(field), c)
  }

  function ReceiveKey(c: Cursor, masked: bool): (Option<bytes>, Cursor) {
    if !masked then (Some([Octet(0), Octet(0), Octet(0), Octet(0)]), c)
    else
      var (key, c') := ReadExact(c, 4);
      (if |key| < 4 then None else Some(key), c')
  }

  function ReceivePayload(c: Cursor, masked: bool, key: bytes, len: nat): (Option<bytes>, Cursor)
    requires |key| == 4
  {
    var (payload, c') := ReadExact(c, len);
    (if |payload| < len then None else Some(if masked then Masked(payload, key) else payload), c')
  }

  /** The key, if there is one, and the payload. */
  function ReceiveBody(c: Cursor, masked: bool, len: nat): (Option<bytes>, Cursor) {
    var (key, c1) := ReceiveKey(c, masked);
    if key == None then (None, c1) else ReceivePayload(c1, masked, key.value, len)
  }

  /** What follows the two header bytes. */
  function ReceiveRest(b0: nat, b1: nat, c: Cursor): (Option<Frame>, Cursor) {
    var (len, c1) := ReceiveLength(c, b1 % 128);
    if len == None || len.value > MAX_PAYLOAD then (None, c1)
    else
      var (payload, c2) := ReceiveBody(c1, b1 >= 128, len.value);
      (if payload == None then None else Some(Frame(b0 >= 128, b0 % 16, b1 >= 128, payload.value)), c2)
  }

  function Receive(c: Cursor): (r: (Option<Frame>, Cursor))
    ensures |r.1.rest| <= |c.rest|
    ensures r.0.Some? ==> |r.1.rest| < |c.rest|
  {
    if c.closed then (None, c)
    else
      var (header, c1) := ReadExact(c, 2);
      if |header| < 2 then (None, c1)
      else ReceiveRest(header[0] as int, header[1] as int, c1)
  }

  function ReceiveAll(c: Cursor): (seq<Frame>, Cursor)
    decreases |c.rest|
  {
    var (f, c1) := Receive(c);
    if f == None then ([], c1)
    else
      var (fs, c2) := ReceiveAll(c1);
      ([f.value] + fs, c2)
  }

  // ----- theorems -----

  lemma TakeExact(a: bytes, t: bytes)
    ensures ReadExact(Cursor(a + t, false), |a|) == (a, Cursor(t, false))
  {
    assert (a + t)[..|a|] == a;
    assert (a + t)[|a|..] == t;
  }

  lemma LengthRoundTrip(w: WireFrame, t: bytes)
    requires w.Valid()
    ensures ReceiveLength(Cursor(Extension(w.form, |w.payload|) + t, false), LengthField(w.form, |w.payload|))
         == (Some(|w.payload|), Cursor(t, false))
  {
    var ext := Extension(w.form, |w.payload|);
    TakeExact(ext, t);
    match w.form {
      case Short => assert [] + t == t;
      case Medium =>
        assert Pow256(2) == 65536;
        ValueOfBigEndian(|w.payload|, 2);
      case Long =>
        assert Pow256(8) == TWO_64;
        ValueOfBigEndian(|w.payload|, 8);
    }
  }

  lemma HeaderRoundTrip(w: WireFrame)
    requires w.Valid()
    ensures var b0, b1 := Header(w)[0] as int, Header(w)[1] as int;
            && (b0 >= 128) == w.fin && b0 % 16 == w.opcode
            && (b1 >= 128) == w.key.Some? && b1 % 128 == LengthField(w.form, |w.payload|)
  {
    var b0 := (if w.fin then 128 else 0) + 16 * w.rsv + w.opcode;
    assert b0 % 16 == w.opcode;
  }

  lemma KeyRoundTrip(w: WireFrame, t: bytes)
    requires w.Valid()
    ensures var (key, c) := ReceiveKey(Cursor(KeyBytes(w) + t, false), w.key.Some?);
            c == Cursor(t, false) && key.Some? && |key.value| == 4 && (w.key.Some? ==> key == w.key)
  {
    TakeExact(KeyBytes(w), t);
    if w.key == None {
      assert KeyBytes(w) + t == t;
    }
  }

  lemma PayloadRoundTrip(w: WireFrame, key: bytes, t: bytes)
    requires w.Valid() && |key| == 4 && (w.key.Some? ==> key == w.key.value)
    ensures ReceivePayload(Cursor(Body(w) + t, false), w.key.Some?, key, |w.payload|) == (Some(w.payload), Cursor(t, false))
  {
    TakeExact(Body(w), t);
    if w.key.Some? {
      MaskedTwice(w.payload, key);
    }
  }

  /** Whatever form, key and reserved bits a frame was written with, the receiver sees the frame and stops
      right behind it. */
  lemma ReceiveOfEncode(w: WireFrame, t: bytes)
    requires w.Valid()
    ensures Receive(Cursor(Encode(w) + t, false)) == (Some(Seen(w)), Cursor(t, false))
  {
    var h, ext, key, body := Header(w), Extension(w.form, |w.payload|), KeyBytes(w), Body(w);
    EncodeThen(w, t);
    TakeExact(h, ext + (key + (body + t)));
    HeaderRoundTrip(w);
    RestRoundTrip(w, h[0] as int, h[1] as int, t);
  }

  lemma RestRoundTrip(w: WireFrame, b0: nat, b1: nat, t: bytes)
    requires w.Valid()
    requires (b0 >= 128) == w.fin && b0 % 16 == w.opcode
    requires (b1 >= 128) == w.key.Some? && b1 % 128 == LengthField(w.form, |w.payload|)
    ensures ReceiveRest(b0, b1, Cursor(Extension(w.form, |w.payload|) + (KeyBytes(w) + (Body(w) + t)), false))
         == (Some(Seen(w)), Cursor(t, false))
  {
    LengthRoundTrip(w, KeyBytes(w) + (Body(w) + t));
    KeyRoundTrip(w, Body(w) + t);
    PayloadRoundTrip(w, ReceiveKey(Cursor(KeyBytes(w) + (Body(w) + t), false), w.key.Some?).0.value, t);
  }

  /** A stream of frames, each of any shape, is received as exactly those frames; then the stream has ended. */
  lemma {:induction false} ReceiveAllOfEncodeAll(ws: seq<WireFrame>)
    requires AllValid(ws)
    ensures ReceiveAll(Cursor(EncodeAll(ws), false)) == (SeenAll(ws), Cursor([], true))
  {
    if ws != [] {
      ReceiveOfEncode(ws[0], EncodeAll(ws[1..]));
      ReceiveAllOfEncodeAll(ws[1..]);
    }
  }

  lemma LengthIsSound(field: nat, c: Cursor)
    requires field < 128 && !c.closed && ReceiveLength(c, field).0.Some?
    ensures var (len, c') := ReceiveLength(c, field);
            var form := FormOf(field);
            && !c'.closed && Fits(form, len.value) && LengthField(form, len.value) == field
            && c.rest == Extension(form, len.value) + c'.rest
  {
    assert Pow256(2) == 65536 && Pow256(8) == TWO_64;
    if field == 126 {
      BigEndianOfValue(c.rest[..2]);
    } else if field == 127 {
      BigEndianOfValue(c.rest[..8]);
    }
  }

  function FormOf(field: nat): Form {
    if field == 126 then Medium else if field == 127 then Long else Short
  }

  /** The wire frame behind a successful receive. */
  function Origin(b0: nat, b1: nat, key: bytes, payload: bytes): WireFrame {
    WireFrame(b0 >= 128, b0 / 16 % 8, b0 % 16, if b1 >= 128 then Some(key) else None, FormOf(b1 % 128), payload)
  }

  lemma PayloadIsSound(c: Cursor, masked: bool, key: bytes, len: nat)
    requires !c.closed && |key| == 4 && ReceivePayload(c, masked, key, len).0.Some?
    ensures var (payload, c') := ReceivePayload(c, masked, key, len);
            && !c'.closed && |payload.value| == len
            && (masked ==> c.rest == Masked(payload.value, key) + c'.rest)
            && (!masked ==> c.rest == payload.value + c'.rest)
  {
    if masked {
      MaskedTwice(c.rest[..len], key);
    }
  }

  lemma RestIsSound(b0: nat, b1: nat, c: Cursor) returns (w: WireFrame)
    requires b0 < 256 && b1 < 256 && !c.closed && ReceiveRest(b0, b1, c).0.Some?
    ensures var (f, c') := ReceiveRest(b0, b1, c);
            && w.Valid() && f == Some(Seen(w)) && !c'.closed
            && c.rest == Extension(w.form, |w.payload|) + (KeyBytes(w) + (Body(w) + c'.rest))
    ensures w.fin == (b0 >= 128) && w.rsv == b0 / 16 % 8 && w.opcode == b0 % 16
    ensures w.key.Some? == (b1 >= 128) && LengthField(w.form, |w.payload|) == b1 % 128
  {
    var masked := b1 >= 128;
    var (len, c1) := ReceiveLength(c, b1 % 128);
    LengthIsSound(b1 % 128, c);
    var (key, c2) := ReceiveKey(c1, masked);
    var (payload, c3) := ReceivePayload(c2, masked, key.value, len.value);
    PayloadIsSound(c2, masked, key.value, len.value);
    w := Origin(b0, b1, key.value, payload.value);
    assert c1.rest == KeyBytes(w) + c2.rest;
    assert c2.rest == Body(w) + c3.rest;
  }

  lemma HeaderIsSound(b0: nat, b1: nat, w: WireFrame)
    requires b0 < 256 && b1 < 256 && w.Valid()
    requires w.fin == (b0 >= 128) && w.rsv == b0 / 16 % 8 && w.opcode == b0 % 16
    requires w.key.Some? == (b1 >= 128) && LengthField(w.form, |w.payload|) == b1 % 128
    ensures Header(w) == [Octet(b0), Octet(b1)]
  {
    assert b0 == 128 * (b0 / 128) + 16 * (b0 / 16 % 8) + b0 % 16;
  }

  lemma EncodeThen(w: WireFrame, t: bytes)
    requires w.Formed()
    ensures Encode(w) + t == Header(w) + (Extension(w.form, |w.payload|) + (KeyBytes(w) + (Body(w) + t)))
  {
  }

  /** Only frames are accepted: a successful receive has consumed the encoding of a valid wire frame. */
  lemma ReceiveIsSound(c: Cursor) returns (w: WireFrame)
    requires Receive(c).0.Some?
    ensures var (f, c') := Receive(c);
            !c.closed && !c'.closed && w.Valid() && f == Some(Seen(w)) && c.rest == Encode(w) + c'.rest
  {
    var (header, c1) := ReadExact(c, 2);
    var b0, b1 := header[0] as int, header[1] as int;
    w := RestIsSound(b0, b1, c1);
    HeaderIsSound(b0, b1, w);
    EncodeThen(w, Receive(c).1.rest);
    assert c.rest == header + c1.rest;
  }

  /** What a receiver saw of any stream whatever is what the frames at its front say. */
  lemma {:induction false} ReceiveAllIsSound(c: Cursor) returns (ws: seq<WireFrame>, left: bytes)
    ensures AllValid(ws)
    ensures c.rest == EncodeAll(ws) + left
    ensures ReceiveAll(c).0 == SeenAll(ws)
    decreases |c.rest|
  {
    var (f, c1) := Receive(c);
    if f == None {
      ws, left := [], c.rest;
    } else {
      var w := ReceiveIsSound(c);
      var tail;
      tail, left := ReceiveAllIsSound(c1);
      ws := [w] + tail;
      FrameBefore(w, tail, left);
    }
  }

  lemma FrameBefore(w: WireFrame, ws: seq<WireFrame>, left: bytes)
    requires w.Formed() && AllFormed(ws)
    ensures EncodeAll([w] + ws) + left == Encode(w) + (EncodeAll(ws) + left)
    ensures SeenAll([w] + ws) == [Seen(w)] + SeenAll(ws)
  {
    assert ([w] + ws)[1..] == ws;
  }

  /** send_frame never spends more bytes than another encoding of the same frame. */
  lemma SentFrameIsShortest(w: WireFrame)
    requires w.Formed()
    ensures SentFrame(w.opcode, w.payload).Formed()
    ensures |Encode(SentFrame(w.opcode, w.payload))| <= |Encode(w)|
  {
  }
}
