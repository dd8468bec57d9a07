/** The specification of buffered reading: a cursor over the bytes that the peer will ever send. */
module StreamCursor {
  import opened Bytes

  /** `rest` is everything not yet returned to a caller; `closed` is the connection's closed_ flag. */
  datatype Cursor = Cursor(rest: bytes, closed: bool)

  datatype Call = Until(delim: bytes) | Exact(n: nat)

  function ReadUntil(c: Cursor, delim: bytes): (bytes, Cursor) {
    match Find(c.rest, delim)
    case Some(p) => (c.rest[..p + |delim|], c.(rest := c.rest[p + |delim|..]))
    case None => (c.rest, Cursor([], true))
  }

  function ReadExact(c: Cursor, n: nat): (bytes, Cursor) {
    if n <= |c.rest| then (c.rest[..n], c.(rest := c.rest[n..]))
    else (c.rest, Cursor([], true))
  }

  function Apply(c: Cursor, call: Call): (bytes, Cursor) {
    match call
    case Until(d) => ReadUntil(c, d)
    case Exact(n) => ReadExact(c, n)
  }

  function Replay(c: Cursor, calls: seq<Call>): (seq<bytes>, Cursor)
    decreases |calls|
  {
    if calls == [] then ([], c)
    else
      var (r, c') := Apply(c, calls[0]);
      var (rs, c'') := Replay(c', calls[1..]);
      ([r] + rs, c'')
  }

  lemma ReplayLast(c: Cursor, calls: seq<Call>, call: Call)
    ensures var (rs, c') := Replay(c, calls);
            var (r, c'') := Apply(c', call);
            Replay(c, calls + [call]) == (rs + [r], c'')
    decreases |calls|
  {
    if calls == [] {
      var (r, c1) := Apply(c, call);
      assert calls + [call] == [call] && [call][1..] == [];
      var none: seq<bytes> := [];
      assert [r] + none == [r] == none + [r];
    } else {
      var (r0, c1) := Apply(c, calls[0]);
      ReplayLast(c1, calls[1..], call);
      assert (calls + [call])[1..] == calls[1..] + [call];
      var (rs, c2) := Replay(c1, calls[1..]);
      var (r, c3) := Apply(c2, call);
      assert [r0] + (rs + [r]) == ([r0] + rs) + [r];
    }
  }

  /** No byte is lost, repeated or reordered by any sequence of calls. */
  lemma {:induction false} ReplayConserves(c: Cursor, calls: seq<Call>)
    ensures var (rs, c') := Replay(c, calls);
            Flatten(rs) + c'.rest == c.rest
    decreases |calls|
  {
    if calls != [] {
      var (r, c1) := Apply(c, calls[0]);
      ApplyConserves(c, calls[0]);
      ReplayConserves(c1, calls[1..]);
      var (rs, c2) := Replay(c1, calls[1..]);
      assert ([r] + rs)[1..] == rs;
      assert r + (Flatten(rs) + c2.rest) == (r + Flatten(rs)) + c2.rest;
    }
  }

  lemma ApplyConserves(c: Cursor, call: Call)
    ensures Apply(c, call).0 + Apply(c, call).1.rest == c.rest
  {
  }

  /** What each call returns: up to and including the first delimiter, or exactly n bytes; everything that is
      left, and the connection marked closed, just when the stream does not hold that much. */
  lemma ApplyReturns(c: Cursor, call: Call)
    ensures var (r, c') := Apply(c, call);
            match call
            case Until(d) =>
              if exists p: nat :: OccursAt(c.rest, d, p) then
                c'.closed == c.closed && |d| <= |r| && r[|r| - |d|..] == d && forall q: nat :: q < |r| - |d| ==> !OccursAt(r, d, q)
              else r == c.rest && c' == Cursor([], true)
            case Exact(n) => if n <= |c.rest| then |r| == n && c'.closed == c.closed else r == c.rest && c' == Cursor([], true)
  {
    if call.Until? && Find(c.rest, call.delim).Some? {
      var d, p := call.delim, Find(c.rest, call.delim).value;
      var r := c.rest[..p + |d|];
      assert c.rest == r + c.rest[p + |d|..];
      assert r[p..] == c.rest[p..p + |d|];
      forall q: nat | q < p ensures !OccursAt(r, d, q) {
        OccursInPrefix(r, c.rest[p + |d|..], d, q);
      }
    }
  }

  /** The stream beyond what a call needs does not influence its answer: a call that is not cut short by
      the end of the stream answers the same on every longer stream. */
  lemma ApplyIsLocal(c: Cursor, call: Call, more: bytes)
    requires match call case Until(d) => Find(c.rest, d).Some? case Exact(n) => n <= |c.rest|
    ensures Apply(c.(rest := c.rest + more), call)
         == (Apply(c, call).0, Apply(c, call).1.(rest := Apply(c, call).1.rest + more))
  {
    match call
    case Until(d) =>
      FindInPrefix(c.rest, more, d);
      var k := Find(c.rest, d).value + |d|;
      assert (c.rest + more)[..k] == c.rest[..k];
      assert (c.rest + more)[k..] == c.rest[k..] + more;
    case Exact(n) =>
      assert (c.rest + more)[..n] == c.rest[..n];
      assert (c.rest + more)[n..] == c.rest[n..] + more;
  }
}
