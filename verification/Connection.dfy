/** A TCP connection: the buffered reader and the partial-write loop, over any behaviour of the kernel. */
module Connections {
  import opened Bytes
  import opened StreamCursor

  /** What the kernel does with the coming recv calls. `Park` is EAGAIN followed by a wake-up; during
      `ParkThenClosed` another coroutine closes the connection; `Reset` is a hard error; after the last
      entry the peer has shut down (EOF). */
  datatype Arrival = Chunk(data: bytes) | Park | ParkThenClosed | Reset

  /** What the kernel does with the coming send calls; after the last entry it takes everything. */
  datatype Departure = Takes(n: nat) | Full | FullThenClosed | Fails

  datatype RecvResult = Received(data: bytes) | Eof | Again(closedMeanwhile: bool) | RecvError
  datatype SendResult = Sent(n: nat) | SendAgain(closedMeanwhile: bool) | SendError

  /** The bytes that reads will still see. */
  function Live(arrivals: seq<Arrival>): bytes {
    if arrivals == [] then []
    else match arrivals[0]
      case Chunk(data) => data + Live(arrivals[1..])
      case Park => Live(arrivals[1..])
      case ParkThenClosed => []
      case Reset => []
  }

  /** No send of this schedule fails and nobody closes the connection while a writer is parked. */
  predicate Healthy(sends: seq<Departure>) {
    forall i :: 0 <= i < |sends| ==> sends[i].Full? || (sends[i].Takes? && sends[i].n > 0)
  }

  /** A hard error is met before any byte is taken. */
  predicate ErrorComesFirst(sends: seq<Departure>) {
    sends != [] && match sends[0]
      case Takes(n) => n == 0
      case Full => ErrorComesFirst(sends[1..])
      case FullThenClosed => false
      case Fails => true
  }

  function Least(a: nat, b: nat): nat { if a < b then a else b }

  /** What a write that has sent `sent` bytes and has `left` to go returns, and whether it closes the connection. */
  function Sending(sends: seq<Departure>, left: nat, sent: nat): (Option<nat>, bool) {
    if left == 0 then (Some(sent), false)
    else if sends == [] then (Some(sent + left), false)
    else match sends[0]
      case Full => Sending(sends[1..], left, sent)
      case FullThenClosed => (Some(sent), true)
      case Fails => (if sent > 0 then Some(sent) else None, true)
      case Takes(n) =>
        if n == 0 then (if sent > 0 then Some(sent) else None, true)
        else Sending(sends[1..], left - Least(n, left), sent + Least(n, left))
  }

  /** A hard error is met before `left` bytes are taken. */
  predicate MeetsError(sends: seq<Departure>, left: nat) {
    left > 0 && sends != [] && match sends[0]
      case Full => MeetsError(sends[1..], left)
      case FullThenClosed => false
      case Fails => true
      case Takes(n) => n == 0 || MeetsError(sends[1..], left - Least(n, left))
  }

  lemma {:induction false} SomethingWasSent(sends: seq<Departure>, left: nat, sent: nat)
    requires sent > 0
    ensures Sending(sends, left, sent).0.Some?
    decreases |sends|
  {
    if left > 0 && sends != [] {
      match sends[0]
      case Full => SomethingWasSent(sends[1..], left, sent);
      case Takes(n) => SomethingWasSent(sends[1..], left - Least(n, left), sent + Least(n, left));
      case _ =>
    }
  }

  /** A write that meets a hard error says so, with -1, exactly if the error comes before any byte. */
  lemma {:induction false} ErrorIsReportedIff(sends: seq<Departure>, n: nat)
    requires MeetsError(sends, n)
    ensures Sending(sends, n, 0).0 == None <==> ErrorComesFirst(sends)
    decreases |sends|
  {
    match sends[0]
    case Full => ErrorIsReportedIff(sends[1..], n);
    case Takes(k) =>
      if k > 0 {
        SomethingWasSent(sends[1..], n - Least(k, n), Least(k, n));
      }
    case _ =>
  }

  /** After part of the data it returns the length of that part. */
  lemma PartThenError(k: nat, n: nat)
    requires 0 < k < n
    ensures MeetsError([Takes(k), Fails], n) && Sending([Takes(k), Fails], n, 0) == (Some(k), true)
  {
    var sends := [Takes(k), Fails];
    assert sends[1..] == [Fails];
    assert MeetsError(sends[1..], n - k);
    assert Sending(sends[1..], n - k, k) == (Some(k), true);
  }

  /** How many bytes these calls would take. */
  function Total(sends: seq<Departure>): nat {
    if sends == [] then 0 else (if sends[0].Takes? then sends[0].n else 0) + Total(sends[1..])
  }

  /** A write of n bytes goes on over every EAGAIN and every part taken, until all is sent or a call ends it, and
      then returns what was taken: this says of every schedule how the write ends. */
  lemma {:induction false} WriteEnds(before: seq<Departure>, next: Departure, after: seq<Departure>, n: nat, sent: nat)
    requires Healthy(before)
    ensures Total(before) >= n ==> Sending(before + after, n, sent) == (Some(sent + n), false)
    ensures Sending(before, n, sent) == (Some(sent + n), false)
    ensures Total(before) < n && next == FullThenClosed ==>
              Sending(before + [next] + after, n, sent) == (Some(sent + Total(before)), true)
    ensures Total(before) < n && (next == Fails || next == Takes(0)) ==>
              Sending(before + [next] + after, n, sent)
              == (if sent + Total(before) > 0 then Some(sent + Total(before)) else None, true)
    decreases |before|
  {
    if before == [] {
      assert before + [next] + after == [next] + after;
    } else if n > 0 {
      var k := if before[0].Takes? then Least(before[0].n, n) else 0;
      assert (before + [next] + after)[1..] == before[1..] + [next] + after;
      assert (before + after)[1..] == before[1..] + after;
      WriteEnds(before[1..], next, after, n - k, sent + k);
    }
  }

  /** What each arrival hands over as long as nothing ends the stream. */
  function Handed(arrivals: seq<Arrival>): bytes {
    Flatten(seq(|arrivals|, i requires 0 <= i < |arrivals| => if arrivals[i].Chunk? then arrivals[i].data else []))
  }

  /** The stream is all that the chunks hold, up to a close during a wait or an error; nothing behind is read. */
  lemma {:induction false} LiveIs(before: seq<Arrival>, next: Arrival, after: seq<Arrival>)
    requires forall a :: a in before ==> a.Chunk? || a.Park?
    ensures Live(before) == Handed(before)
    ensures next.ParkThenClosed? || next.Reset? ==> Live(before + [next] + after) == Handed(before)
  {
    if before == [] {
      assert before + [next] + after == [next] + after;
    } else {
      var pieces := seq(|before|, i requires 0 <= i < |before| => if before[i].Chunk? then before[i].data else []);
      LiveIs(before[1..], next, after);
      assert (before + [next] + after)[1..] == before[1..] + [next] + after;
      assert pieces[1..] == seq(|before| - 1, i requires 0 <= i < |before| - 1 => if before[1..][i].Chunk? then before[1..][i].data else []);
    }
  }

  class Socket {
    var arrivals: seq<Arrival>
    var sends: seq<Departure>
    var delivered: bytes   // what the kernel has accepted for the peer

    constructor (arrivals: seq<Arrival>, sends: seq<Departure>)
      ensures this.arrivals == arrivals && this.sends == sends && delivered == []
    {
      this.arrivals, this.sends, delivered := arrivals, sends, [];
    }

    /** recv(fd, buf, max, 0): a chunk may be handed out in several calls, never more than `max` at once. */
    method Recv(max: nat) returns (r: RecvResult)
      requires max > 0
      modifies this`arrivals
      ensures match r
              case Received(d) => 0 < |d| <= max && d + Live(arrivals) == Live(old(arrivals))
              case Eof => Live(old(arrivals)) == [] && arrivals == old(arrivals)
              case Again(true) => Live(old(arrivals)) == []
              case Again(false) => Live(arrivals) == Live(old(arrivals)) && |arrivals| < |old(arrivals)|
              case RecvError => Live(old(arrivals)) == []
    {
      if arrivals == [] {
        return Eof;
      }
      match arrivals[0] {
        case Chunk(data) =>
          if data == [] {
            arrivals := arrivals[1..];
            return Again(false);
          }
          if |data| <= max {
            arrivals := arrivals[1..];
            return Received(data);
          }
          assert data == data[..max] + data[max..];
          ghost var tail := arrivals[1..];
          arrivals := arrivals[0 := Chunk(data[max..])];
          assert arrivals[1..] == tail;
          assert data[..max] + (data[max..] + Live(tail)) == data + Live(tail);
          return Received(data[..max]);
        case Park =>
          arrivals := arrivals[1..];
          return Again(false);
        case ParkThenClosed =>
          arrivals := arrivals[1..];
          return Again(true);
        case Reset =>
          return RecvError;
      }
    }

    /** send(fd, data, MSG_NOSIGNAL) */
    method Send(data: bytes) returns (r: SendResult)
      requires data != []
      modifies this`sends, this`delivered
      ensures match r
              case Sent(n) => n <= |data| && delivered == old(delivered) + data[..n]
              case SendAgain(_) => delivered == old(delivered)
              case SendError => delivered == old(delivered)
      ensures r.Sent? ==> if old(sends) == [] then r.n == |data| else old(sends)[0].Takes? && r.n == Least(old(sends)[0].n, |data|)
      ensures r == SendAgain(false) ==> old(sends) != [] && old(sends)[0] == Full
      ensures r == SendAgain(true) ==> old(sends) != [] && old(sends)[0] == FullThenClosed
      ensures r == SendError ==> old(sends) != [] && old(sends)[0] == Fails
      ensures sends == if old(sends) == [] then [] else old(sends)[1..]
    {
      if sends == [] {
        delivered := delivered + data;
        assert data[..|data|] == data;
        return Sent(|data|);
      }
      var head := sends[0];
      sends := sends[1..];
      match head {
        case Takes(n) =>
          var k := Least(n, |data|);
          delivered := delivered + data[..k];
          return Sent(k);
        case Full => return SendAgain(false);
        case FullThenClosed => return SendAgain(true);
        case Fails => return SendError;
      }
    }
  }

  class Connection {
    const socket: Socket
    var closed: bool
    var readBuf: bytes

    constructor (socket: Socket)
      ensures this.socket == socket && View() == Cursor(Live(socket.arrivals), false)
    {
      this.socket, closed, readBuf := socket, false, [];
    }

    /** What the kernel will still hand over: nothing once the connection is closed. */
    function Incoming(): bytes
      reads this, socket
    {
      if closed then [] else Live(socket.arrivals)
    }

    function View(): Cursor
      reads this, socket
    {
      Cursor(readBuf + Incoming(), closed)
    }

    method Close()
      modifies this`closed
      ensures closed
      ensures readBuf == [] ==> View() == Cursor([], true)
    {
      closed := true;
    }

    /** One batch of bytes; empty exactly when the stream is over. */
    method Read(max: nat) returns (chunk: bytes)
      requires max > 0
      modifies this`closed, socket`arrivals
      ensures |chunk| <= max
      ensures chunk + Incoming() == old(Incoming())
      ensures chunk == [] <==> old(Incoming()) == []
      ensures closed == (chunk == [])
    {
      if closed {
        return [];
      }
      while true
        invariant !closed && Incoming() == old(Incoming())
        decreases |socket.arrivals|
      {
        var r := socket.Recv(max);
        match r {
          case Received(data) =>
            return data;
          case Eof =>
            closed := true;
            return [];
          case Again(closedMeanwhile) =>
            if closedMeanwhile {   // set by whoever ran while this coroutine sat in wait_event
              closed := true;
              return [];
            }
          case RecvError =>
            closed := true;
            return [];
        }
      }
    }

    method ReadUntil(delim: bytes) returns (result: bytes)
      modifies this`closed, this`readBuf, socket`arrivals
      ensures (result, View()) == StreamCursor.ReadUntil(old(View()), delim)
      ensures closed && !old(closed) ==> readBuf == []
    {
      while true
        invariant View() == old(View())
        decreases |Incoming()|
      {
        var pos := Find(readBuf, delim);
        if pos.Some? {
          var k := pos.value + |delim|;
          result := readBuf[..k];
          ghost var incoming := Incoming();
          FindInPrefix(readBuf, incoming, delim);
          assert (readBuf + incoming)[..k] == readBuf[..k];
          assert (readBuf + incoming)[k..] == readBuf[k..] + incoming;
          readBuf := readBuf[k..];
          return;
        }
        ghost var before, was := readBuf, Incoming();
        var chunk := Read(4096);
        assert (before + chunk) + Incoming() == before + was;
        if chunk == [] {
          result, readBuf := readBuf, [];
          assert before + was == before;
          return;
        }
        readBuf := readBuf + chunk;
      }
    }

    method ReadExact(n: nat) returns (result: bytes)
      modifies this`closed, this`readBuf, socket`arrivals
      ensures (result, View()) == StreamCursor.ReadExact(old(View()), n)
      ensures closed && !old(closed) ==> readBuf == []
    {
      while |readBuf| < n
        invariant View().rest == old(View().rest)
        invariant closed ==> old(closed)
        invariant old(closed) ==> closed
        decreases |Incoming()|
      {
        ghost var before, was := readBuf, Incoming();
        var chunk := Read(4096);
        assert (before + chunk) + Incoming() == before + was;
        if chunk == [] {
          break;
        }
        readBuf := readBuf + chunk;
      }
      ghost var incoming := Incoming();
      if |readBuf| >= n {
        result := readBuf[..n];
        assert (readBuf + incoming)[..n] == readBuf[..n];
        assert (readBuf + incoming)[n..] == readBuf[n..] + incoming;
        readBuf := readBuf[n..];
        return;
      }
      assert readBuf + incoming == readBuf;
      result, readBuf := readBuf, [];
    }

    method Perform(call: Call) returns (result: bytes)
      modifies this`closed, this`readBuf, socket`arrivals
      ensures (result, View()) == Apply(old(View()), call)
    {
      match call {
        case Until(d) => result := ReadUntil(d);
        case Exact(n) => result := ReadExact(n);
      }
    }

    /** Any sequence of buffered reads answers as the cursor does: the chunking cannot be observed. */
    method Replay(calls: seq<Call>) returns (results: seq<bytes>)
      modifies this`closed, this`readBuf, socket`arrivals
      ensures (results, View()) == StreamCursor.Replay(old(View()), calls)
      ensures Flatten(results) + (readBuf + Incoming()) == old(readBuf + Incoming())
    {
      results := [];
      for i := 0 to |calls|
        invariant (results, View()) == StreamCursor.Replay(old(View()), calls[..i])
      {
        var r := Perform(calls[i]);
        ReplayLast(old(View()), calls[..i], calls[i]);
        assert calls[..i] + [calls[i]] == calls[..i + 1];
        results := results + [r];
      }
      assert calls[..|calls|] == calls;
      ReplayConserves(old(View()), calls);
    }

    /** Some(n) is the returned byte count, None the -1 of a hard error. */
    method Write(data: bytes) returns (count: Option<nat>)
      modifies this`closed, socket`sends, socket`delivered
      ensures var sent := if count.Some? then count.value else 0;
              sent <= |data| && socket.delivered == old(socket.delivered) + data[..sent]
      ensures !old(closed) && data != [] ==> (count, closed) == Sending(old(socket.sends), |data|, 0)
      ensures count == None <==> !old(closed) && data != [] && ErrorComesFirst(old(socket.sends))
      ensures old(closed) ==> count == Some(0) && closed
      ensures !closed ==> count == Some(|data|)
      ensures closed && !old(closed) ==> count.None? || count.value < |data|
      ensures Healthy(old(socket.sends)) ==> Healthy(socket.sends) && closed == old(closed)
    {
      if closed || data == [] {
        return Some(0);
      }
      var sent := 0;
      while sent < |data|
        invariant !closed && sent <= |data|
        invariant socket.delivered == old(socket.delivered) + data[..sent]
        invariant Sending(socket.sends, |data| - sent, sent) == Sending(old(socket.sends), |data|, 0)
        invariant sent == 0 ==> ErrorComesFirst(socket.sends) == ErrorComesFirst(old(socket.sends))
        invariant sent > 0 ==> !ErrorComesFirst(old(socket.sends))
        invariant Healthy(old(socket.sends)) ==> Healthy(socket.sends)
        decreases |socket.sends|, |data| - sent
      {
        var r := socket.Send(data[sent..]);
        match r {
          case Sent(n) =>
            if n == 0 {
              closed := true;
              return if sent > 0 then Some(sent) else None;
            }
            assert data[..sent] + data[sent..][..n] == data[..sent + n];
            sent := sent + n;
          case SendAgain(closedMeanwhile) =>
            if closedMeanwhile {
              closed := true;
              return Some(sent);
            }
          case SendError =>
            closed := true;
            return if sent > 0 then Some(sent) else None;
        }
      }
      assert data[..sent] == data;
      return Some(sent);
    }
  }
}
