/** The WebSocket endpoint: receiving and sending frames over a connection. */
module WebSockets {
  import opened Bytes
  import opened StreamCursor
  import opened Connections
  import opened FrameCodec
  import opened FrameReading

  /** The caller's frame record, filled field by field while a frame is read. */
  class WsFrame {
    var fin: bool
    var opcode: nat
    var masked: bool
    var payload: bytes

    constructor ()
    {
      fin, opcode, masked, payload := false, 0, false, [];
    }

    function View(): Frame
      reads this
    {
      Frame(fin, opcode, masked, payload)
    }

    /** The fields taken from the two header bytes. */
    predicate Begun(b0: nat, b1: nat)
      reads this
    {
      fin == (b0 >= 128) && opcode == b0 % 16 && masked == (b1 >= 128)
    }
  }

  const CLOSE: nat := 8

  /** Opcode and payload of a frame to send. */
  datatype Message = Message(opcode: nat, payload: bytes)

  class WebSocket {
    const conn: Connection

    constructor (conn: Connection)
      ensures this.conn == conn
    {
      this.conn := conn;
    }

    /** Reads one frame. The payload of the record is written last, so a failed receive leaves it alone. */
    method RecvFrame(frame: WsFrame) returns (ok: bool)
      modifies frame, conn`closed, conn`readBuf, conn.socket`arrivals
      ensures var (f, c) := Receive(old(conn.View()));
              conn.View() == c && ok == f.Some? && (ok ==> frame.View() == f.value)
      ensures !ok ==> frame.payload == old(frame.payload)
      ensures !ok ==> var header := ReadExact(old(conn.View()), 2).0;
                      if old(conn.closed) || |header| < 2 then frame.View() == old(frame.View())
                      else frame.Begun(header[0] as int, header[1] as int)
      ensures ok ==> ReadsAs(old(conn.View().rest), frame.View())
      ensures conn.closed && !old(conn.closed) ==> conn.readBuf == []
    {
      ghost var c := conn.View();
      if Receive(c).0.Some? {
        ReceiveReadsAs(c);
      }
      if conn.closed {
        return false;
      }
      var header := conn.ReadExact(2);
      if |header| < 2 {
        return false;
      }
      ok := RecvRest(frame, header[0] as int, header[1] as int);
    }

    /** The part of the receive that follows the two header bytes. */
    method RecvRest(frame: WsFrame, b0: nat, b1: nat) returns (ok: bool)
      modifies frame, conn`closed, conn`readBuf, conn.socket`arrivals
      ensures var (f, c) := ReceiveRest(b0, b1, old(conn.View()));
              conn.View() == c && ok == f.Some? && (ok ==> frame.View() == f.value)
      ensures frame.Begun(b0, b1) && (!ok ==> frame.payload == old(frame.payload))
      ensures conn.closed && !old(conn.closed) ==> conn.readBuf == []
    {
      frame.fin := b0 >= 128;
      frame.opcode := b0 % 16;
      frame.masked := b1 >= 128;
      var len := RecvLength(b1 % 128);
      if len == None || len.value > MAX_PAYLOAD {
        return false;
      }
      var payload := RecvBody(frame.masked, len.value);
      if payload == None {
        return false;
      }
      frame.payload := payload.value;
      return true;
    }

    method RecvBody(masked: bool, len: nat) returns (payload: Option<bytes>)
      modifies conn`closed, conn`readBuf, conn.socket`arrivals
      ensures (payload, conn.View()) == ReceiveBody(old(conn.View()), masked, len)
      ensures conn.closed && !old(conn.closed) ==> conn.readBuf == []
    {
      var key := RecvKey(masked);
      if key == None {
        return None;
      }
      payload := RecvPayload(masked, key.value, len);
    }

    /** The 7-bit length, or the 16-bit or 64-bit length that follows it, accumulated byte by byte. */
    method RecvLength(field: nat) returns (len: Option<nat>)
      requires field < 128
      modifies conn`closed, conn`readBuf, conn.socket`arrivals
      ensures (len, conn.View()) == ReceiveLength(old(conn.View()), field)
      ensures conn.closed && !old(conn.closed) ==> conn.readBuf == []
    {
      if field == 126 {
        var ext := conn.ReadExact(2);
        if |ext| < 2 {
          return None;
        }
        assert ext[..1][..0] == [] && ext[..1][0] == ext[0];
        assert Value(ext[..1]) == ext[0] as int;
        return Some(ext[0] as int * 256 + ext[1] as int);
      } else if field == 127 {
        var ext := conn.ReadExact(8);
        if |ext| < 8 {
          return None;
        }
        var n := Accumulate(ext);
        return Some(n);
      }
      return Some(field);
    }

    /** (n << 8) | next byte, eight times, in 64 bits */
    static method Accumulate(ext: bytes) returns (n: nat)
      requires |ext| == 8
      ensures n == Value(ext)
    {
      n := 0;
      for i := 0 to 8
        invariant n == Value(ext[..i])
      {
        assert ext[..i + 1][..i] == ext[..i];
        assert n < Pow256(i) <= Pow256(7) by { assert |ext[..i]| == i; Pow256Grows(i, 7); }
        assert 256 * Pow256(7) == TWO_64;
        n := n * 256 % TWO_64 + ext[i] as int;
      }
      assert ext[..8] == ext;
    }

    method RecvKey(masked: bool) returns (key: Option<bytes>)
      modifies conn`closed, conn`readBuf, conn.socket`arrivals
      ensures (key, conn.View()) == ReceiveKey(old(conn.View()), masked)
      ensures key.Some? ==> |key.value| == 4
      ensures conn.closed && !old(conn.closed) ==> conn.readBuf == []
    {
      if !masked {
        return Some([Octet(0), Octet(0), Octet(0), Octet(0)]);
      }
      var m := conn.ReadExact(4);
      return if |m| < 4 then None else Some(m);
    }

    method RecvPayload(masked: bool, key: bytes, len: nat) returns (result: Option<bytes>)
      requires |key| == 4
      modifies conn`closed, conn`readBuf, conn.socket`arrivals
      ensures (result, conn.View()) == ReceivePayload(old(conn.View()), masked, key, len)
      ensures result.Some? ==> |result.value| == len <= |old(conn.View().rest)|
      ensures result.Some? && masked ==> Unmasks(old(conn.View().rest)[..len], key, result.value)
      ensures result.Some? && !masked ==> result.value == old(conn.View().rest)[..len]
      ensures conn.closed && !old(conn.closed) ==> conn.readBuf == []
    {
      var payload := conn.ReadExact(len);
      if |payload| < len {
        return None;
      }
      MaskedUnmasks(payload, key);
      if masked {
        ghost var raw := payload;
        for i := 0 to |payload|
          invariant |payload| == |raw|
          invariant forall k :: 0 <= k < i ==> payload[k] == Masked(raw, key)[k]
          invariant forall k :: i <= k < |raw| ==> payload[k] == raw[k]
        {
          payload := payload[i := Xor(payload[i], key[i % 4])];
        }
        assert payload == Masked(raw, key);
      }
      return Some(payload);
    }

    /** Receives until the stream ends or breaks, as a session loop does. */
    method RecvAll(frame: WsFrame) returns (frames: seq<Frame>)
      modifies frame, conn`closed, conn`readBuf, conn.socket`arrivals
      ensures (frames, conn.View()) == ReceiveAll(old(conn.View()))
    {
      frames := [];
      ghost var all := ReceiveAll(conn.View());
      assert frames + all.0 == all.0;
      while true
        invariant all == (frames + ReceiveAll(conn.View()).0, ReceiveAll(conn.View()).1)
        decreases |conn.View().rest|
      {
        ReceiveAllStep(conn.View(), frames);
        var ok := RecvFrame(frame);
        if !ok {
          return;
        }
        frames := frames + [frame.View()];
      }
    }

    /** Header, length and payload of an unmasked final frame, appended one after the other. */
    static method Build(opcode: nat, payload: bytes) returns (frame: bytes)
      requires opcode < 16 && |payload| < TWO_64
      ensures frame == Wire(opcode, payload)
    {
      frame := [Octet(128 + opcode)];
      var len := |payload|;
      if len < 126 {
        frame := frame + [Octet(len)];
      } else if len < 65536 {
        frame := frame + [Octet(126)];
        frame := frame + [Octet(len / 256 % 256)];
        frame := frame + [Octet(len % 256)];
        assert BigEndian(len, 2) == BigEndian(len / 256, 1) + [Octet(len % 256)];
        assert BigEndian(len / 256, 1) == [] + [Octet(len / 256 % 256)];
      } else {
        frame := frame + [Octet(127)];
        ghost var head := frame;
        var i := 7;
        while i >= 0
          invariant -1 <= i <= 7
          invariant frame == head + BigEndian(ShiftRight(len, i + 1), 7 - i)
          decreases i
        {
          frame := frame + [Octet(ShiftRight(len, i) % 256)];
          i := i - 1;
        }
      }
      frame := frame + payload;
      WireIs(opcode, payload);
      assert frame == Wire(opcode, payload);
    }

    /** Writes one unmasked final frame; the byte count of the write is ignored, as the program does. */
    method SendFrame(opcode: nat, payload: bytes)
      requires opcode < 16 && |payload| < TWO_64
      modifies conn`closed, conn.socket`sends, conn.socket`delivered
      ensures exists k :: 0 <= k <= |Wire(opcode, payload)| && conn.socket.delivered == old(conn.socket.delivered) + Wire(opcode, payload)[..k]
                     && (!conn.closed ==> k == |Wire(opcode, payload)|)
      ensures !old(conn.closed) && Healthy(old(conn.socket.sends)) ==>
                !conn.closed && conn.socket.delivered == old(conn.socket.delivered) + Wire(opcode, payload)
      ensures Healthy(old(conn.socket.sends)) ==> Healthy(conn.socket.sends)
    {
      var frame := Build(opcode, payload);
      var count := conn.Write(frame);
      ghost var k := if count.Some? then count.value else 0;
      assert conn.socket.delivered == old(conn.socket.delivered) + Wire(opcode, payload)[..k];
      assert frame[..|frame|] == frame;
    }

    method SendText(msg: bytes)
      requires |msg| < TWO_64
      modifies conn`closed, conn.socket`sends, conn.socket`delivered
      ensures !old(conn.closed) && Healthy(old(conn.socket.sends)) ==>
                !conn.closed && conn.socket.delivered == old(conn.socket.delivered) + Wire(1, msg)
    {
      SendFrame(1, msg);
    }

    /** An empty close frame, then the connection is shut. */
    method SendClose()
      modifies conn`closed, conn.socket`sends, conn.socket`delivered
      ensures conn.closed
      ensures !old(conn.closed) && Healthy(old(conn.socket.sends)) ==>
                conn.socket.delivered == old(conn.socket.delivered) + Wire(8, [])
    {
      SendFrame(CLOSE, []);
      conn.Close();
    }
  }

  lemma ReceiveAllStep(c: Cursor, before: seq<Frame>)
    ensures var (f, c1) := Receive(c);
            if f == None then ReceiveAll(c) == ([], c1) && before + ReceiveAll(c).0 == before
            else before + ReceiveAll(c).0 == before + [f.value] + ReceiveAll(c1).0 && ReceiveAll(c).1 == ReceiveAll(c1).1
  {
    var (f, c1) := Receive(c);
    if f.Some? {
      assert before + ([f.value] + ReceiveAll(c1).0) == before + [f.value] + ReceiveAll(c1).0;
    }
  }

  /** A whole session on a new connection: however the kernel cuts the stream of frames into chunks and
      wake-ups, exactly those frames are received, and then the end of the stream. */
  method ReceiveStream(arrivals: seq<Arrival>, ghost ws: seq<WireFrame>) returns (frames: seq<Frame>)
    requires AllValid(ws)
    requires Live(arrivals) == EncodeAll(ws)
    ensures frames == SeenAll(ws)
  {
    var socket := new Socket(arrivals, []);
    var conn := new Connection(socket);
    var endpoint := new WebSocket(conn);
    var record := new WsFrame();
    ReceiveAllOfEncodeAll(ws);
    frames := endpoint.RecvAll(record);
  }

  function SentFrames(messages: seq<Message>): (ws: seq<WireFrame>)
    ensures |ws| == |messages| && forall i :: 0 <= i < |ws| ==> ws[i] == SentFrame(messages[i].opcode, messages[i].payload)
  {
    seq(|messages|, i requires 0 <= i < |messages| => SentFrame(messages[i].opcode, messages[i].payload))
  }

  predicate Sendable(messages: seq<Message>) {
    forall i :: 0 <= i < |messages| ==> messages[i].opcode < 16 && |messages[i].payload| < TWO_64
  }

  lemma {:induction false} EncodeAllLast(ws: seq<WireFrame>, w: WireFrame)
    requires w.Formed() && AllFormed(ws)
    ensures EncodeAll(ws + [w]) == EncodeAll(ws) + Encode(w)
  {
    if ws == [] {
      assert ws + [w] == [w] && [w][1..] == [];
    } else {
      assert (ws + [w])[1..] == ws[1..] + [w];
      EncodeAllLast(ws[1..], w);
      assert Encode(ws[0]) + (EncodeAll(ws[1..]) + Encode(w)) == Encode(ws[0]) + EncodeAll(ws[1..]) + Encode(w);
    }
  }

  lemma OneMoreSent(messages: seq<Message>, i: nat)
    requires Sendable(messages) && i < |messages|
    ensures EncodeAll(SentFrames(messages[..i + 1]))
         == EncodeAll(SentFrames(messages[..i])) + Wire(messages[i].opcode, messages[i].payload)
  {
    var w := SentFrame(messages[i].opcode, messages[i].payload);
    assert SentFrames(messages[..i + 1]) == SentFrames(messages[..i]) + [w];
    EncodeAllLast(SentFrames(messages[..i]), w);
  }

  /** What a session of frames puts on the wire, however the kernel takes the writes in parts. */
  method SendStream(messages: seq<Message>, sends: seq<Departure>) returns (wire: bytes)
    requires Sendable(messages) && Healthy(sends)
    ensures wire == EncodeAll(SentFrames(messages))
  {
    var socket := new Socket([], sends);
    var conn := new Connection(socket);
    var endpoint := new WebSocket(conn);
    for i := 0 to |messages|
      invariant !conn.closed && Healthy(socket.sends)
      invariant socket.delivered == EncodeAll(SentFrames(messages[..i]))
    {
      OneMoreSent(messages, i);
      endpoint.SendFrame(messages[i].opcode, messages[i].payload);
    }
    assert messages[..|messages|] == messages;
    return socket.delivered;
  }

  /** What one endpoint sends, another receives, frame by frame, whatever the network does to the chunks. */
  method Exchange(messages: seq<Message>, sends: seq<Departure>, network: bytes -> seq<Arrival>) returns (frames: seq<Frame>)
    requires Sendable(messages) && Healthy(sends) && forall b :: Live(network(b)) == b
    requires forall i :: 0 <= i < |messages| ==> |messages[i].payload| <= MAX_PAYLOAD
    ensures |frames| == |messages|
    ensures forall i :: 0 <= i < |frames| ==> frames[i] == Frame(true, messages[i].opcode, false, messages[i].payload)
  {
    var wire := SendStream(messages, sends);
    frames := ReceiveStream(network(wire), SentFrames(messages));
    SeenAllAt(SentFrames(messages));
  }

  lemma {:induction false} SeenAllAt(ws: seq<WireFrame>)
    ensures |SeenAll(ws)| == |ws| && forall i :: 0 <= i < |ws| ==> SeenAll(ws)[i] == Seen(ws[i])
  {
    if ws != [] {
      SeenAllAt(ws[1..]);
    }
  }

  /** len >> (8 * i) */
  function ShiftRight(len: nat, i: nat): nat {
    if i == 0 then len else ShiftRight(len, i - 1) / 256
  }

  lemma Pow256Grows(i: nat, j: nat)
    requires i <= j
    ensures Pow256(i) <= Pow256(j)
    decreases j - i
  {
    if i < j {
      Pow256Grows(i, j - 1);
    }
  }

  /** The bytes send_frame means to put on the wire. Frames over 10 MiB are sent as well, though the
      receiving side of this program would refuse them. */
  function Wire(opcode: nat, payload: bytes): bytes
    requires opcode < 16 && |payload| < TWO_64
  {
    Encode(SentFrame(opcode, payload))
  }

  lemma WireIs(opcode: nat, payload: bytes)
    requires opcode < 16 && |payload| < TWO_64
    ensures var form := Shortest(|payload|);
            Wire(opcode, payload)
            == [Octet(128 + opcode), Octet(LengthField(form, |payload|))] + Extension(form, |payload|) + payload
  {
    var w := SentFrame(opcode, payload);
    assert KeyBytes(w) == [] && Body(w) == payload;
  }

  /** Byte by byte: FIN and the opcode, then the length without the mask bit, in the shortest of three forms and in
      network order, then the payload as it is. */
  lemma WireBytes(opcode: nat, payload: bytes)
    requires opcode < 16 && |payload| < TWO_64
    ensures var w, n := Wire(opcode, payload), |payload|;
            && |w| >= 2 && w[0] as int == 0x80 + opcode
            && (n < 126 ==> w[1] as int == n && w[2..] == payload)
            && (126 <= n < 0x1_0000 ==> w[1] as int == 126 && |w| == 4 + n && 256 * w[2] as int + w[3] as int == n && w[4..] == payload)
            && (n >= 0x1_0000 ==> w[1] as int == 127 && |w| == 10 + n && Number(w[2..10]) == n && w[10..] == payload)
  {
    var n, form := |payload|, Shortest(|payload|);
    var header, ext := [Octet(128 + opcode), Octet(LengthField(form, n))], Extension(form, n);
    WireIs(opcode, payload);
    assert (header + ext + payload)[2..] == ext + payload;
    assert (header + ext + payload)[2 + |ext|..] == payload;
    if form == Long {
      assert Pow256(8) == TWO_64;
      ValueOfBigEndian(n, 8);
      ValueOfEight(ext);
      assert (header + ext + payload)[2..10] == ext;
    } else if form == Medium {
      assert Pow256(2) == 65536;
      ValueOfBigEndian(n, 2);
      ValueOfTwo(ext);
    }
  }

  /** Within the limit those bytes are received as that frame, whatever follows. */
  lemma WireIsReceived(opcode: nat, payload: bytes, t: bytes)
    requires opcode < 16 && |payload| <= 10_485_760
    ensures Receive(Cursor(Wire(opcode, payload) + t, false)) == (Some(Frame(true, opcode, false, payload)), Cursor(t, false))
  {
    ReceiveOfEncode(SentFrame(opcode, payload), t);
  }

  /** Above the limit they are refused, whatever follows. */
  lemma OversizeIsRefused(opcode: nat, payload: bytes, t: bytes)
    requires opcode < 16 && 10_485_760 < |payload| < TWO_64
    ensures Receive(Cursor(Wire(opcode, payload) + t, false)).0 == None
  {
    var ext := BigEndian(|payload|, 8);
    var header := [Octet(128 + opcode), Octet(127)];
    WireIs(opcode, payload);
    assert Wire(opcode, payload) + t == header + (ext + (payload + t));
    TakeExact(header, ext + (payload + t));
    TakeExact(ext, payload + t);
    assert Pow256(8) == TWO_64;
    ValueOfBigEndian(|payload|, 8);
  }
}
