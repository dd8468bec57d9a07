/** Printed requests, and what a parser reads of a stream of them (section 6 of RFC 9112). */
module Pipelining {
  import opened Bytes
  import opened StreamCursor
  import opened UrlCodec
  import opened HttpText
  import opened HttpParser

  // ----- a request on the wire -----

  /** The lines of the head and the body. */
  datatype Printed = Printed(lines: seq<bytes>, body: bytes)

  function JoinLines(lines: seq<bytes>): bytes {
    if lines == [] then []
    else if |lines| == 1 then lines[0]
    else lines[0] + CRLF + JoinLines(lines[1..])
  }

  function Print(p: Printed): bytes {
    JoinLines(p.lines) + BLANK_LINE + p.body
  }

  predicate CleanLine(line: bytes) {
    line != [] && '\r' !in line && '\n' !in line
  }

  predicate CleanLines(lines: seq<bytes>) {
    lines != [] && forall i :: 0 <= i < |lines| ==> CleanLine(lines[i])
  }

  /** What the head asks for. */
  function Asked(p: Printed): Option<Request>
    requires p.lines != []
  {
    match ReadLine(p.lines[0], EMPTY)
    case None => None
    case Some(r) => Some(r.(headers := AddHeaders(map[], p.lines[1..])))
  }

  /** The first line is acceptable, and the length the head announces is that of the body. */
  predicate WellFormed(p: Printed) {
    && CleanLines(p.lines) && Asked(p).Some? && |p.body| <= MAX_BODY
    && (if p.body == [] then Asked(p).value.ContentLength() <= 0 else Asked(p).value.ContentLength() == |p.body|)
  }

  function Meaning(p: Printed): Request
    requires WellFormed(p)
  {
    Asked(p).value.(body := p.body)
  }

  // ----- the blank line is found where it is -----

  lemma OccursStep(a: bytes, s: bytes, d: bytes, q: nat)
    requires |a| <= q
    ensures OccursAt<byte>(a + s, d, q) == OccursAt<byte>(s, d, q - |a|)
  {
    if q - |a| + |d| <= |s| {
      assert (a + s)[q..q + |d|] == s[q - |a|..q - |a| + |d|];
    }
  }

  lemma BlankChars(s: bytes, q: nat)
    requires OccursAt<byte>(s, BLANK_LINE, q)
    ensures q + 4 <= |s| && s[q] == '\r' && s[q + 1] == '\n' && s[q + 2] == '\r' && s[q + 3] == '\n'
  {
    var w := s[q..q + 4];
    assert w == BLANK_LINE;
    assert s[q] == w[0] && s[q + 1] == w[1] && s[q + 2] == w[2] && s[q + 3] == w[3];
  }

  lemma NotInLine(line: bytes, s: bytes, q: nat)
    requires CleanLine(line) && q < |line|
    ensures !OccursAt<byte>(line + s, BLANK_LINE, q)
  {
    assert (line + s)[q] == line[q];
    if OccursAt<byte>(line + s, BLANK_LINE, q) {
      BlankChars(line + s, q);
      assert false;
    }
  }

  /** A line end followed by a further line is not a blank line. */
  lemma NotAtLineEnd(next: bytes, s: bytes, q: nat)
    requires CleanLine(next) && q < 2
    ensures !OccursAt<byte>(CRLF + (next + s), BLANK_LINE, q)
  {
    var w := CRLF + (next + s);
    assert w[0] == '\r' && w[1] == '\n' && w[2] == next[0];
    if OccursAt<byte>(w, BLANK_LINE, q) {
      BlankChars(w, q);
      assert false;
    }
  }

  lemma {:induction false} NoEarlierBlank(lines: seq<bytes>, t: bytes, q: nat)
    requires CleanLines(lines) && q < |JoinLines(lines)|
    ensures !OccursAt<byte>(JoinLines(lines) + (BLANK_LINE + t), BLANK_LINE, q)
    decreases |lines|
  {
    var l := lines[0];
    if q < |l| {
      var s := if |lines| == 1 then BLANK_LINE + t else CRLF + JoinLines(lines[1..]) + (BLANK_LINE + t);
      assert JoinLines(lines) + (BLANK_LINE + t) == l + s;
      NotInLine(l, s, q);
    } else {
      var tail := JoinLines(lines[1..]) + (BLANK_LINE + t);
      assert JoinLines(lines) + (BLANK_LINE + t) == l + (CRLF + tail);
      OccursStep(l, CRLF + tail, BLANK_LINE, q);
      if q < |l| + 2 {
        var next := lines[1];
        var s := tail[|next|..];
        assert CleanLine(next);
        assert tail == next + s by { NextLineLeads(lines[1..], BLANK_LINE + t); }
        NotAtLineEnd(next, s, q - |l|);
      } else {
        OccursStep(CRLF, tail, BLANK_LINE, q - |l|);
        assert CleanLines(lines[1..]);
        NoEarlierBlank(lines[1..], t, q - |l| - 2);
      }
    }
  }

  lemma NextLineLeads(lines: seq<bytes>, t: bytes)
    requires lines != []
    ensures |lines[0]| <= |JoinLines(lines) + t| && lines[0] + (JoinLines(lines) + t)[|lines[0]|..] == JoinLines(lines) + t
  {
  }

  /** Even if the body holds blank lines, the head ends at the first one. */
  lemma HeadEnds(p: Printed, t: bytes)
    requires CleanLines(p.lines)
    ensures ReadUntil(Cursor(Print(p) + t, false), BLANK_LINE)
         == (JoinLines(p.lines) + BLANK_LINE, Cursor(p.body + t, false))
  {
    var j := JoinLines(p.lines);
    var s := j + (BLANK_LINE + (p.body + t));
    assert Print(p) + t == s;
    forall q: nat | q < |j| ensures !OccursAt<byte>(s, BLANK_LINE, q) {
      NoEarlierBlank(p.lines, p.body + t, q);
    }
    OccursStep(j, BLANK_LINE + (p.body + t), BLANK_LINE, |j|);
    assert (BLANK_LINE + (p.body + t))[0..4] == BLANK_LINE;
    FindIs<byte>(s, BLANK_LINE, |j|);
    assert s[..|j| + 4] == j + BLANK_LINE;
    assert s[|j| + 4..] == p.body + t;
  }

  // ----- the lines come back -----

  lemma LineComesBack(l: bytes, rest: bytes)
    requires CleanLine(l)
    ensures LinesOf(l + CRLF + rest) == [l] + LinesOf(rest)
  {
    var j := l + CRLF + rest;
    FirstLine(j);
    assert j == (l + ['\r']) + ['\n'] + rest;
    FindChar<byte>(l + ['\r'], rest, '\n');
    assert j[..|l| + 1] == l + ['\r'] && j[|l| + 2..] == rest;
    assert (l + ['\r'])[..|l|] == l;
  }

  lemma {:induction false} LinesOfJoined(lines: seq<bytes>)
    requires CleanLines(lines)
    ensures LinesOf(JoinLines(lines)) == lines
    decreases |lines|
  {
    var l := lines[0];
    assert CleanLine(l);
    if |lines| == 1 {
      FirstLine(l);
      FindCharNone<byte>(l, '\n');
      assert LinesOf([]) == [];
    } else {
      LineComesBack(l, JoinLines(lines[1..]));
      assert CleanLines(lines[1..]);
      LinesOfJoined(lines[1..]);
      assert lines == [l] + lines[1..];
    }
  }

  /** A well-formed request is read as what it means, and the parser stops right behind its body. */
  lemma ReadOfPrint(p: Printed, t: bytes)
    requires WellFormed(p)
    ensures ReadRequest(Cursor(Print(p) + t, false)) == (Some(Meaning(p)), Cursor(t, false))
  {
    var block := JoinLines(p.lines) + BLANK_LINE;
    HeadEnds(p, t);
    assert Head(block) == JoinLines(p.lines);
    LinesOfJoined(p.lines);
    var req := Asked(p).value;
    assert ReadHead(block) == Some(req);
    if p.body == [] {
      assert p.body + t == t;
    } else {
      assert (p.body + t)[..|p.body|] == p.body && (p.body + t)[|p.body|..] == t;
    }
    ReadLineHasNoBody(p.lines[0]);
  }

  lemma ReadLineHasNoBody(line: bytes)
    requires ReadLine(line, EMPTY).Some?
    ensures ReadLine(line, EMPTY).value.body == []
  {
  }

  /** The head block as read_until returns it: up to the first blank line, or all there is. */
  function Block(stream: bytes): bytes {
    match Find<byte>(stream, BLANK_LINE)
    case None => stream
    case Some(p) => stream[..p + 4]
  }

  /** The stream ends inside its first request: before the blank line, or before the announced end of the body. */
  predicate Cut(stream: bytes) {
    match Find<byte>(stream, BLANK_LINE)
    case None => true
    case Some(p) =>
      var head := ReadHead(stream[..p + 4]);
      head.Some? && |stream| - (p + 4) < head.value.ContentLength()
  }

  /** A stream that ends too early is not always refused: it is accepted exactly when what there is of the head
      parses and does not announce too long a body. */
  lemma CutIsAcceptedIff(stream: bytes)
    requires Cut(stream)
    ensures ReadRequest(Cursor(stream, false)).0.Some?
            <==> stream != [] && ReadHead(Block(stream)).Some? && ReadHead(Block(stream)).value.ContentLength() <= MAX_BODY
  {
    var (block, c1) := ReadUntil(Cursor(stream, false), BLANK_LINE);
    assert block == Block(stream);
  }

  /** So an accepted request was whole on the stream unless that is the case, and afterwards the connection
      tells: it is closed exactly if the request was cut. */
  lemma ClosedIffCut(stream: bytes)
    requires ReadRequest(Cursor(stream, false)).0.Some?
    ensures ReadRequest(Cursor(stream, false)).1.closed <==> Cut(stream)
  {
    var (block, c1) := ReadUntil(Cursor(stream, false), BLANK_LINE);
    assert block == Block(stream);
    BodyClosesIff(ReadHead(block).value, c1);
  }

  lemma BodyClosesIff(req: Request, c: Cursor)
    requires ReadBody(req, c).0.Some?
    ensures ReadBody(req, c).1.closed <==> c.closed || |c.rest| < req.ContentLength()
  {
  }

  /** A body that the stream cuts short is taken as it is, for every request and every place of the cut. */
  lemma CutBodyIsAccepted(p: Printed, n: nat)
    requires WellFormed(p) && n < |p.body|
    ensures var stream := JoinLines(p.lines) + BLANK_LINE + p.body[..n];
            Cut(stream) && ReadRequest(Cursor(stream, false)) == (Some(Meaning(p).(body := p.body[..n])), Cursor([], true))
  {
    var short := Printed(p.lines, p.body[..n]);
    var stream, block := Print(short), JoinLines(p.lines) + BLANK_LINE;
    HeadEnds(short, []);
    assert stream + [] == stream && short.body + [] == short.body;
    assert Head(block) == JoinLines(p.lines);
    LinesOfJoined(p.lines);
    assert ReadHead(block) == Asked(p);
    var (b, c1) := ReadUntil(Cursor(stream, false), BLANK_LINE);
    ClosedIffCut(stream);
  }

  lemma CutHeadIsRead(line: bytes)
    requires line == "G / V"
    ensures ReadHead(line + "1234").Some? && ReadHead(line + "1234").value.ContentLength() == -1
  {
    var lines: seq<bytes> := [line];
    assert CleanLines(lines) && JoinLines(lines) == line;
    LinesOfJoined(lines);
    assert Head(line + "1234") == line;
    var text := [Choice('/', Plain)];
    assert text[1..] == [] && Encoded(text) == ['/'] && Meant(text) == ['/'];
    assert RequestLine("G", text, [], "V") == line;
    RequestLineRoundTrip("G", text, [], "V");
    assert AddHeaders(map[], lines[1..]) == map[];
  }

  lemma NoBlankWithoutCr(s: bytes)
    requires '\r' !in s
    ensures Find<byte>(s, BLANK_LINE) == None
  {
    var r := Find<byte>(s, BLANK_LINE);
    if r.Some? {
      BlankChars(s, r.value);
      assert false;
    }
  }

  /** A head cut off before its blank line: the last four bytes are dropped, and the rest is taken. */
  lemma CutHeadIsAccepted(line: bytes)
    requires line == "G / V"
    ensures var c := Cursor(line + "1234", false);
            ReadRequest(c).0.Some? && Cut(c.rest)
  {
    NoBlankWithoutCr(line + "1234");
    CutHeadIsRead(line);
  }

  // ----- request lines -----

  /** isspace in the C locale */
  const SPACES: set<byte> := {' ', 9 as char, 10 as char, 11 as char, 12 as char, 13 as char}

  function Url(path: seq<Choice>, pairs: seq<Pair>): bytes {
    if pairs == [] then Encoded(path) else Encoded(path) + ['?'] + QueryText(pairs)
  }

  function RequestLine(m: bytes, path: seq<Choice>, pairs: seq<Pair>, version: bytes): bytes {
    m + [' '] + Url(path, pairs) + [' '] + version
  }

  predicate Printable(m: bytes, path: seq<Choice>, pairs: seq<Pair>, version: bytes) {
    && IsWord(m) && IsWord(version)
    && MayEncode(path, SPACES + {'?'}) && PairsMayEncode(pairs, SPACES) && (path != [] || pairs != [])
    && Find<byte>(Meant(path), ['.', '.']) == None
  }

  predicate NoSpaces(s: bytes) {
    forall i :: 0 <= i < |s| ==> !IsSpace(s[i])
  }

  lemma AvoidsSpaces(s: bytes)
    requires forall c :: c in SPACES ==> c !in s
    ensures NoSpaces(s)
  {
    forall i | 0 <= i < |s| ensures !IsSpace(s[i]) {
      assert s[i] in s && s[i] !in SPACES;
    }
  }

  lemma {:induction false} JoinNoSpaces(ps: seq<bytes>)
    requires forall i :: 0 <= i < |ps| ==> NoSpaces(ps[i])
    ensures NoSpaces(Join<byte>(ps, '&'))
  {
    if |ps| > 1 {
      JoinNoSpaces(ps[1..]);
    }
  }

  lemma {:induction false} PairsNoSpaces(pairs: seq<Pair>)
    requires PairsMayEncode(pairs, SPACES)
    ensures |EncodedPairs(pairs)| == |pairs|
    ensures forall i :: 0 <= i < |pairs| ==> NoSpaces(EncodedPairs(pairs)[i])
    decreases |pairs|
  {
    if pairs != [] {
      EncodedAvoids(pairs[0].key, SPACES + {'&', '='});
      EncodedAvoids(pairs[0].val, SPACES + {'&'});
      AvoidsSpaces(Encoded(pairs[0].key));
      AvoidsSpaces(Encoded(pairs[0].val));
      PairsNoSpaces(pairs[1..]);
    }
  }

  lemma UrlIsWord(path: seq<Choice>, pairs: seq<Pair>)
    requires MayEncode(path, SPACES + {'?'}) && PairsMayEncode(pairs, SPACES) && (path != [] || pairs != [])
    ensures IsWord(Url(path, pairs))
  {
    EncodedAvoids(path, SPACES + {'?'});
    AvoidsSpaces(Encoded(path));
    PairsNoSpaces(pairs);
    JoinNoSpaces(EncodedPairs(pairs));
    if path != [] {
      assert Written(path[0]) != [];
    }
  }

  /** Reading a printed request line restores its path, query and version, and its method in capitals. */
  lemma RequestLineRoundTrip(m: bytes, path: seq<Choice>, pairs: seq<Pair>, version: bytes)
    requires Printable(m, path, pairs, version)
    ensures var r := ReadLine(RequestLine(m, path, pairs, version), EMPTY);
            && r == Some(EMPTY.(method_ := Upper(m), path := Meant(path), version := version, query := MeantPairs(map[], pairs)))
            && InCapitals(m, r.value.method_)
  {
    UpperIsCapitals(m);
    var url := Url(path, pairs);
    UrlIsWord(path, pairs);
    ThreeWords(m, url, version);
    EncodedAvoids(path, SPACES + {'?'});
    DecodeOfEncoded(path, SPACES + {'?'});
    if pairs == [] {
      FindCharNone<byte>(url, '?');
    } else {
      FindChar<byte>(Encoded(path), QueryText(pairs), '?');
      assert url[..|Encoded(path)|] == Encoded(path) && url[|Encoded(path)| + 1..] == QueryText(pairs);
      QueryRoundTrip(map[], pairs, SPACES);
    }
  }

  lemma ThreeWords(a: bytes, b: bytes, c: bytes)
    requires IsWord(a) && IsWord(b) && IsWord(c)
    ensures var (w1, r1) := Word(a + [' '] + b + [' '] + c);
            var (w2, r2) := Word(r1);
            var (w3, r3) := Word(r2);
            w1 == a && w2 == b && w3 == c
  {
    assert a + [' '] + b + [' '] + c == a + ([' '] + b + ([' '] + c));
    WordOf(a, [' '] + b + ([' '] + c));
    WordOf(b, [' '] + c);
    WordOf(c, []);
    assert [' '] + c + [] == [' '] + c;
  }

  /** Lines that differ only in the case of the method are read as the same request. */
  lemma MethodCaseIsIgnored(m1: bytes, m2: bytes, capitals: bytes, path: seq<Choice>, pairs: seq<Pair>, version: bytes)
    requires Printable(m1, path, pairs, version) && Printable(m2, path, pairs, version)
    requires InCapitals(m1, capitals) && InCapitals(m2, capitals)
    ensures ReadLine(RequestLine(m1, path, pairs, version), EMPTY) == ReadLine(RequestLine(m2, path, pairs, version), EMPTY)
  {
    RequestLineRoundTrip(m1, path, pairs, version);
    RequestLineRoundTrip(m2, path, pairs, version);
    CapitalsAreOne(m1, Upper(m1), capitals);
    CapitalsAreOne(m2, Upper(m2), capitals);
  }

  lemma CapitalsAreOne(m: bytes, a: bytes, b: bytes)
    requires InCapitals(m, a) && InCapitals(m, b)
    ensures a == b
  {
    forall i | 0 <= i < |m| ensures a[i] == b[i] {
      assert a[i] as int == b[i] as int;
    }
  }

  /** A line needs three words. */
  lemma TooFewWords(line: bytes, a: bytes, b: bytes, req: Request)
    requires (line == [] || IsWord(line)) && IsWord(a) && IsWord(b)
    ensures ReadLine(line, req) == None && ReadLine(a + [' '] + b, req) == None
  {
    NoWord();
    MissingWord([], [], [], [], [], req);
    if line != [] {
      OneWord(line);
      MissingWord(line, line, [], [], [], req);
    }
    TwoWords(a, b);
    MissingWord(a + [' '] + b, a, [' '] + b, b, [], req);
  }

  lemma TwoWords(a: bytes, b: bytes)
    requires IsWord(a) && IsWord(b)
    ensures Word(a + [' '] + b) == (a, [' '] + b) && Word([' '] + b) == (b, [])
  {
    assert a + [' '] + b == a + ([' '] + b);
    WordOf(a, [' '] + b);
    WordOf(b, []);
    assert [' '] + b + [] == [' '] + b;
  }

  lemma MissingWord(line: bytes, w1: bytes, r1: bytes, w2: bytes, r2: bytes, req: Request)
    requires Word(line) == (w1, r1) && Word(r1) == (w2, r2) && Word(r2).0 == []
    ensures ReadLine(line, req) == None
  {
  }

  lemma NoWord()
    ensures Word([]) == ([], [])
  {
  }

  lemma OneWord(w: bytes)
    requires IsWord(w)
    ensures Word(w) == (w, [])
  {
    WordOf(w, []);
    assert w + [] == w;
  }

  /** No accepted line leads outside: its decoded path holds no two dots in a row. */
  lemma AcceptedPathIsSafe(line: bytes, req: Request, p: nat)
    requires ReadLine(line, req).Some?
    ensures !OccursAt<byte>(ReadLine(line, req).value.path, ['.', '.'], p)
  {
  }

  // ----- header lines -----

  function HeaderLine(name: bytes, left: bytes, value: bytes, right: bytes): bytes {
    name + [':'] + (left + value + right)
  }

  /** A header line, with any padding around its value, sets the lower-cased name to the value. */
  lemma HeaderRoundTrip(h: Headers, name: bytes, left: bytes, value: bytes, right: bytes)
    requires Tight(name) && name != [] && ':' !in name && Tight(value) && AllTrimmable(left) && AllTrimmable(right)
    ensures AddHeader(h, HeaderLine(name, left, value, right)) == h[Lower(name) := value]
  {
    SplitAtColon(name, left + value + right);
    TrimOf(left, value, right);
    TrimOfTight(name);
    assert Lower(name) != [];
  }

  lemma SplitAtColon(name: bytes, rest: bytes)
    requires ':' !in name
    ensures var line := name + [':'] + rest;
            Find<byte>(line, [':']) == Some(|name|) && line[..|name|] == name && line[|name| + 1..] == rest
  {
    FindChar<byte>(name, rest, ':');
  }

  /** A line without a colon, or with nothing but blanks before it, is skipped. */
  lemma OtherLinesAreSkipped(h: Headers, line: bytes, name: bytes, value: bytes)
    requires ':' !in line && ':' !in name && AllBlank(name)
    ensures AddHeader(h, line) == h && AddHeader(h, name + [':'] + value) == h
  {
    FindCharNone<byte>(line, ':');
    SplitAtColon(name, value);
    var i, j := TrimIs(name);
  }

  /** Lines behind the first empty one are no headers. */
  lemma {:induction false} EmptyLineEnds(h: Headers, lines: seq<bytes>, more: seq<bytes>)
    ensures AddHeaders(h, lines + [[]] + more) == AddHeaders(h, lines)
    decreases |lines|
  {
    var all := lines + [[]] + more;
    if lines != [] && lines[0] != [] {
      assert all[1..] == lines[1..] + [[]] + more;
      EmptyLineEnds(AddHeader(h, lines[0]), lines[1..], more);
    }
  }

  lemma {:induction false} AddHeadersLast(h: Headers, lines: seq<bytes>, line: bytes)
    requires line != [] && forall i :: 0 <= i < |lines| ==> lines[i] != []
    ensures AddHeaders(h, lines + [line]) == AddHeader(AddHeaders(h, lines), line)
    decreases |lines|
  {
    if lines == [] {
      assert lines + [line] == [line] && [line][1..] == [];
      assert AddHeaders(AddHeader(h, line), []) == AddHeader(h, line);
    } else {
      assert (lines + [line])[1..] == lines[1..] + [line];
      AddHeadersLast(AddHeader(h, lines[0]), lines[1..], line);
    }
  }

  /** The Connection header line decides whether the session goes on: "close" in any case ends it, "keep-alive"
      in any case keeps it, and any other value leaves it to the version. */
  lemma ConnectionDecides(req: Request, h: Headers, name: bytes, left: bytes, value: bytes, right: bytes)
    requires Tight(name) && ':' !in name && Lower(name) == "connection"
    requires Tight(value) && AllTrimmable(left) && AllTrimmable(right)
    requires req.headers == AddHeader(h, HeaderLine(name, left, value, right))
    ensures Lower(value) == "close" ==> !req.KeepAlive()
    ensures Lower(value) == "keep-alive" ==> req.KeepAlive()
    ensures Lower(value) != "close" && Lower(value) != "keep-alive" ==> (req.KeepAlive() <==> req.version == "HTTP/1.1")
  {
    assert Lower("connection") == "connection";
    HeaderRoundTrip(h, name, left, value, right);
  }

  lemma VersionDecides(req: Request)
    requires "connection" !in req.headers
    ensures req.KeepAlive() <==> req.version == "HTTP/1.1"
  {
    assert Lower("connection") == "connection" && Lower([]) == [];
  }

  const CONTENT_LENGTH: bytes := "Content-Length"

  /** The head of a request: any lines, with any number as Content-Length in decimal as the last header. */
  function Announcing(m: bytes, path: seq<Choice>, pairs: seq<Pair>, version: bytes, headers: seq<bytes>, n: nat): seq<bytes> {
    [RequestLine(m, path, pairs, version)] + (headers + [HeaderLine(CONTENT_LENGTH, [' '], Decimal(n), [])])
  }

  /** The usual way to print a request: the length announced is that of the body. */
  function Standard(m: bytes, path: seq<Choice>, pairs: seq<Pair>, version: bytes, headers: seq<bytes>, body: bytes): Printed {
    Printed(Announcing(m, path, pairs, version, headers, |body|), body)
  }

  lemma ContentLengthIsName()
    ensures Tight(CONTENT_LENGTH) && CONTENT_LENGTH != [] && ':' !in CONTENT_LENGTH
  {
  }

  lemma LowerOfContentLength()
    ensures Lower(CONTENT_LENGTH) == Lower("content-length")
  {
  }

  lemma DigitsAreClean(d: bytes)
    requires d != [] && forall i :: 0 <= i < |d| ==> IsDigit(d[i])
    ensures CleanLine(d) && Tight(d)
  {
  }

  lemma WordsAreClean(s: bytes)
    requires IsWord(s)
    ensures CleanLine(s)
  {
  }

  lemma RequestLineIsClean(m: bytes, path: seq<Choice>, pairs: seq<Pair>, version: bytes)
    requires Printable(m, path, pairs, version)
    ensures CleanLine(RequestLine(m, path, pairs, version))
  {
    UrlIsWord(path, pairs);
    WordsAreClean(m);
    WordsAreClean(Url(path, pairs));
    WordsAreClean(version);
  }

  /** The length that content_length() makes of it: beyond the range of an int it is taken for a missing header. */
  function Understood(n: nat): int {
    if n <= INT_MAX then n else -1
  }

  lemma LengthIsUnderstood(req: Request, n: nat)
    requires Lower(CONTENT_LENGTH) in req.headers && req.headers[Lower(CONTENT_LENGTH)] == Decimal(n)
    ensures req.ContentLength() == Understood(n)
  {
    LowerOfContentLength();
    StoiOfDecimal(n);
  }

  lemma HeaderComesLast(headers: seq<bytes>, name: bytes, value: bytes)
    requires forall i :: 0 <= i < |headers| ==> CleanLine(headers[i])
    requires Tight(name) && name != [] && ':' !in name && Tight(value)
    ensures AddHeaders(map[], headers + [HeaderLine(name, [' '], value, [])]) == AddHeaders(map[], headers)[Lower(name) := value]
  {
    AddHeadersLast(map[], headers, HeaderLine(name, [' '], value, []));
    HeaderRoundTrip(AddHeaders(map[], headers), name, [' '], value, []);
  }

  lemma LengthComesLast(headers: seq<bytes>, n: nat)
    requires forall i :: 0 <= i < |headers| ==> CleanLine(headers[i])
    ensures AddHeaders(map[], headers + [HeaderLine(CONTENT_LENGTH, [' '], Decimal(n), [])])
         == AddHeaders(map[], headers)[Lower(CONTENT_LENGTH) := Decimal(n)]
  {
    DigitsAreClean(Decimal(n));
    ContentLengthIsName();
    HeaderComesLast(headers, CONTENT_LENGTH, Decimal(n));
  }

  lemma StandardAsks(m: bytes, path: seq<Choice>, pairs: seq<Pair>, version: bytes, headers: seq<bytes>, body: bytes)
    requires Printable(m, path, pairs, version) && forall i :: 0 <= i < |headers| ==> CleanLine(headers[i])
    ensures Asked(Standard(m, path, pairs, version, headers, body))
         == Some(Request(Upper(m), Meant(path), version, [],
                         AddHeaders(map[], headers)[Lower(CONTENT_LENGTH) := Decimal(|body|)], MeantPairs(map[], pairs)))
  {
    var p := Standard(m, path, pairs, version, headers, body);
    RequestLineRoundTrip(m, path, pairs, version);
    assert p.lines[1..] == headers + [HeaderLine(CONTENT_LENGTH, [' '], Decimal(|body|), [])];
    LengthComesLast(headers, |body|);
  }

  lemma LengthLineIsClean(d: bytes)
    requires d != [] && forall i :: 0 <= i < |d| ==> IsDigit(d[i])
    ensures CleanLine(HeaderLine(CONTENT_LENGTH, [' '], d, []))
  {
    DigitsAreClean(d);
  }

  lemma CleanAround(first: bytes, lines: seq<bytes>, last: bytes)
    requires CleanLine(first) && CleanLine(last) && forall i :: 0 <= i < |lines| ==> CleanLine(lines[i])
    ensures CleanLines([first] + (lines + [last]))
  {
  }

  lemma AnnouncingIsClean(m: bytes, path: seq<Choice>, pairs: seq<Pair>, version: bytes, headers: seq<bytes>, n: nat)
    requires Printable(m, path, pairs, version) && forall i :: 0 <= i < |headers| ==> CleanLine(headers[i])
    ensures CleanLines(Announcing(m, path, pairs, version, headers, n))
  {
    RequestLineIsClean(m, path, pairs, version);
    LengthLineIsClean(Decimal(n));
    CleanAround(RequestLine(m, path, pairs, version), headers, HeaderLine(CONTENT_LENGTH, [' '], Decimal(n), []));
  }

  /** Every request so printed is well-formed, so it is read back whole. */
  lemma StandardIsWellFormed(m: bytes, path: seq<Choice>, pairs: seq<Pair>, version: bytes, headers: seq<bytes>, body: bytes)
    requires Printable(m, path, pairs, version) && |body| <= 10_485_760
    requires forall i :: 0 <= i < |headers| ==> CleanLine(headers[i])
    ensures var p := Standard(m, path, pairs, version, headers, body);
            && WellFormed(p)
            && Meaning(p) == Request(Upper(m), Meant(path), version, body,
                                     AddHeaders(map[], headers)[Lower(CONTENT_LENGTH) := Decimal(|body|)], MeantPairs(map[], pairs))
  {
    StandardAsks(m, path, pairs, version, headers, body);
    AnnouncingIsClean(m, path, pairs, version, headers, |body|);
    LengthIsUnderstood(Asked(Standard(m, path, pairs, version, headers, body)).value, |body|);
  }

  /** One byte of two: the body is cut, the request is accepted. */
  lemma CutBodyIsReachable(body: bytes) returns (p: Printed)
    requires |body| == 2
    ensures WellFormed(p) && p.body == body
    ensures var stream := JoinLines(p.lines) + BLANK_LINE + body[..1];
            Cut(stream) && ReadRequest(Cursor(stream, false)).0 == Some(Meaning(p).(body := body[..1]))
  {
    var path := [Choice('/', Plain)];
    assert path[1..] == [] && Meant(path) == ['/'];
    var m, version: bytes := "G", "V";
    assert Upper(m) == m;
    p := Standard(m, path, [], version, [], body);
    FindCharNone<byte>(Meant(path), '.');
    StandardIsWellFormed(m, path, [], version, [], body);
    CutBodyIsAccepted(p, 1);
  }

  // ----- what becomes of an announced length -----

  function Announced(m: bytes, path: seq<Choice>, pairs: seq<Pair>, version: bytes, headers: seq<bytes>, n: nat): Request {
    Request(Upper(m), Meant(path), version, [], AddHeaders(map[], headers)[Lower(CONTENT_LENGTH) := Decimal(n)], MeantPairs(map[], pairs))
  }

  lemma AnnouncingAsks(m: bytes, path: seq<Choice>, pairs: seq<Pair>, version: bytes, headers: seq<bytes>, n: nat)
    requires Printable(m, path, pairs, version) && forall i :: 0 <= i < |headers| ==> CleanLine(headers[i])
    ensures var lines := Announcing(m, path, pairs, version, headers, n);
            CleanLines(lines) && ReadHead(JoinLines(lines) + BLANK_LINE) == Some(Announced(m, path, pairs, version, headers, n))
  {
    var lines := Announcing(m, path, pairs, version, headers, n);
    AnnouncingIsClean(m, path, pairs, version, headers, n);
    RequestLineRoundTrip(m, path, pairs, version);
    assert lines[1..] == headers + [HeaderLine(CONTENT_LENGTH, [' '], Decimal(n), [])];
    LengthComesLast(headers, n);
    LinesOfJoined(lines);
    assert Head(JoinLines(lines) + BLANK_LINE) == JoinLines(lines);
  }

  lemma HeadThenBody(lines: seq<bytes>, req: Request, t: bytes)
    requires CleanLines(lines) && ReadHead(JoinLines(lines) + BLANK_LINE) == Some(req)
    ensures ReadRequest(Cursor(JoinLines(lines) + BLANK_LINE + t, false)) == ReadBody(req, Cursor(t, false))
  {
    HeadEnds(Printed(lines, []), t);
    assert [] + t == t && JoinLines(lines) + BLANK_LINE + [] + t == JoinLines(lines) + BLANK_LINE + t;
  }

  /** What is read of a body whose length is announced as n. */
  function BodyOf(req: Request, n: nat, t: bytes): (Option<Request>, Cursor) {
    if n <= MAX_BODY then
      if n <= |t| then (Some(req.(body := t[..n])), Cursor(t[n..], false)) else (Some(req.(body := t)), Cursor([], true))
    else if n <= INT_MAX then (None, Cursor(t, false))
    else (Some(req), Cursor(t, false))
  }

  lemma BodyIsRead(req: Request, n: nat, t: bytes)
    requires req.ContentLength() == Understood(n) && req.body == []
    ensures ReadBody(req, Cursor(t, false)) == BodyOf(req, n, t)
  {
    assert n == 0 ==> t[..n] == [] && t[n..] == t;
  }

  /** Any stream that starts with such a head, by the number it announces. Up to 10 MiB that many bytes are the
      body, or all there are; above, the request is refused; and from 2^31 on it is accepted with an empty body,
      what follows being left to be read as the next request. */
  lemma AnnouncedLength(m: bytes, path: seq<Choice>, pairs: seq<Pair>, version: bytes, headers: seq<bytes>, n: nat, t: bytes)
    requires Printable(m, path, pairs, version) && forall i :: 0 <= i < |headers| ==> CleanLine(headers[i])
    ensures ReadRequest(Cursor(JoinLines(Announcing(m, path, pairs, version, headers, n)) + BLANK_LINE + t, false))
         == BodyOf(Announced(m, path, pairs, version, headers, n), n, t)
  {
    var req := Announced(m, path, pairs, version, headers, n);
    AnnouncingAsks(m, path, pairs, version, headers, n);
    LengthIsUnderstood(req, n);
    HeadThenBody(Announcing(m, path, pairs, version, headers, n), req, t);
    BodyIsRead(req, n, t);
  }

  /** So the announced length is honoured, by a refusal, by a body of that length or by the end of the stream,
      if and only if it is in the range of an int. */
  lemma LengthIsHonouredIff(m: bytes, path: seq<Choice>, pairs: seq<Pair>, version: bytes, headers: seq<bytes>, n: nat, t: bytes)
    requires Printable(m, path, pairs, version) && forall i :: 0 <= i < |headers| ==> CleanLine(headers[i])
    ensures var (r, c) := ReadRequest(Cursor(JoinLines(Announcing(m, path, pairs, version, headers, n)) + BLANK_LINE + t, false));
            r == None || |r.value.body| == n || c.closed <==> n <= 0x7FFF_FFFF
  {
    AnnouncedLength(m, path, pairs, version, headers, n, t);
  }

  // ----- streams of requests -----

  function PrintAll(ps: seq<Printed>): bytes {
    if ps == [] then [] else Print(ps[0]) + PrintAll(ps[1..])
  }

  predicate AllWellFormed(ps: seq<Printed>) {
    ps == [] || (WellFormed(ps[0]) && AllWellFormed(ps[1..]))
  }

  function Meanings(ps: seq<Printed>): seq<Request>
    requires AllWellFormed(ps)
  {
    if ps == [] then [] else [Meaning(ps[0])] + Meanings(ps[1..])
  }

  /** The requests that the keep-alive loop reads, and whether it ends in a 400. */
  function Serve(c: Cursor): (seq<Request>, bool)
    decreases |c.rest|
  {
    if c.closed then ([], false)
    else
      var (r, c1) := ReadRequest(c);
      if r == None then ([], !c1.closed)
      else if !r.value.KeepAlive() then ([r.value], false)
      else
        var (rs, bad) := Serve(c1);
        ([r.value] + rs, bad)
  }

  predicate AllKeepAlive(ps: seq<Printed>)
    requires AllWellFormed(ps)
  {
    ps == [] || (Meaning(ps[0]).KeepAlive() && AllKeepAlive(ps[1..]))
  }

  lemma ServeOne(p: Printed, t: bytes)
    requires WellFormed(p)
    ensures Serve(Cursor(Print(p) + t, false))
         == if Meaning(p).KeepAlive() then ([Meaning(p)] + Serve(Cursor(t, false)).0, Serve(Cursor(t, false)).1)
            else ([Meaning(p)], false)
  {
    ReadOfPrint(p, t);
  }

  lemma PrintAllFirst(ps: seq<Printed>, t: bytes)
    requires ps != []
    ensures PrintAll(ps) + t == Print(ps[0]) + (PrintAll(ps[1..]) + t)
  {
  }

  lemma Regroup<A>(a: seq<A>, b: seq<A>, c: seq<A>)
    ensures a + (b + c) == (a + b) + c
  {
  }

  /** Requests that keep the connection open are served one by one, whatever follows them. */
  lemma {:induction false} ServePrefix(ps: seq<Printed>, t: bytes)
    requires AllWellFormed(ps) && AllKeepAlive(ps)
    ensures Serve(Cursor(PrintAll(ps) + t, false)) == (Meanings(ps) + Serve(Cursor(t, false)).0, Serve(Cursor(t, false)).1)
    decreases |ps|
  {
    if ps == [] {
      assert PrintAll(ps) + t == t;
      assert Meanings(ps) + Serve(Cursor(t, false)).0 == Serve(Cursor(t, false)).0;
    } else {
      PrintAllFirst(ps, t);
      ServeOne(ps[0], PrintAll(ps[1..]) + t);
      ServePrefix(ps[1..], t);
      Regroup([Meaning(ps[0])], Meanings(ps[1..]), Serve(Cursor(t, false)).0);
    }
  }

  lemma ServeNothing()
    ensures Serve(Cursor([], false)) == ([], false)
  {
    assert ReadUntil(Cursor([], false), BLANK_LINE) == ([], Cursor([], true)) by {
      assert !OccursAt<byte>([], BLANK_LINE, 0);
    }
    assert ReadRequest(Cursor([], false)) == (None, Cursor([], true));
  }

  /** Then the end of the stream ends the session without an error. */
  lemma ServeAll(ps: seq<Printed>)
    requires AllWellFormed(ps) && AllKeepAlive(ps)
    ensures Serve(Cursor(PrintAll(ps), false)) == (Meanings(ps), false)
  {
    ServePrefix(ps, []);
    ServeNothing();
    assert PrintAll(ps) + [] == PrintAll(ps);
    assert Meanings(ps) + [] == Meanings(ps);
  }

  /** Or, if the last request asks to close, nothing behind it is read. */
  lemma ServeToClose(ps: seq<Printed>, last: Printed, t: bytes)
    requires AllWellFormed(ps) && AllKeepAlive(ps) && WellFormed(last) && !Meaning(last).KeepAlive()
    ensures Serve(Cursor(PrintAll(ps) + (Print(last) + t), false)) == (Meanings(ps) + [Meaning(last)], false)
  {
    ServePrefix(ps, Print(last) + t);
    ServeOne(last, t);
  }

  /** No request that the loop reads is cut by the end of the stream. */
  predicate WholeToEnd(c: Cursor)
    decreases |c.rest|
  {
    c.closed ||
    var (r, c1) := ReadRequest(c);
    r == None || (!c1.closed && (r.value.KeepAlive() ==> WholeToEnd(c1)))
  }

  /** What may follow the requests that keep the connection: nothing, or one that asks to close and then anything. */
  function Ending(last: Option<Printed>, t: bytes): bytes {
    match last case None => [] case Some(p) => Print(p) + t
  }

  predicate EndsWell(last: Option<Printed>) {
    last.Some? ==> WellFormed(last.value) && !Meaning(last.value).KeepAlive()
  }

  function LastMeaning(last: Option<Printed>): seq<Request>
    requires EndsWell(last)
  {
    match last case None => [] case Some(p) => [Meaning(p)]
  }

  /** The whole session, whether the client closes or asks for it. */
  lemma ServeSession(ps: seq<Printed>, last: Option<Printed>, t: bytes)
    requires AllWellFormed(ps) && AllKeepAlive(ps) && EndsWell(last)
    ensures Serve(Cursor(PrintAll(ps) + Ending(last, t), false)) == (Meanings(ps) + LastMeaning(last), false)
  {
    match last
    case None =>
      ServeAll(ps);
      assert PrintAll(ps) + [] == PrintAll(ps) && Meanings(ps) + [] == Meanings(ps);
    case Some(p) => ServeToClose(ps, p, t);
  }

  lemma EndingIsWhole(last: Option<Printed>, t: bytes)
    requires EndsWell(last)
    ensures WholeToEnd(Cursor(Ending(last, t), false))
  {
    match last
    case None =>
      assert !OccursAt<byte>([], BLANK_LINE, 0);
      assert ReadUntil(Cursor([], false), BLANK_LINE) == ([], Cursor([], true));
      assert ReadRequest(Cursor([], false)) == (None, Cursor([], true));
    case Some(p) => ReadOfPrint(p, t);
  }

  lemma {:induction false} SessionIsWhole(ps: seq<Printed>, last: Option<Printed>, t: bytes)
    requires AllWellFormed(ps) && AllKeepAlive(ps) && EndsWell(last)
    ensures WholeToEnd(Cursor(PrintAll(ps) + Ending(last, t), false))
    decreases |ps|
  {
    if ps == [] {
      assert PrintAll(ps) + Ending(last, t) == Ending(last, t);
      EndingIsWhole(last, t);
    } else {
      PrintAllFirst(ps, Ending(last, t));
      ReadOfPrint(ps[0], PrintAll(ps[1..]) + Ending(last, t));
      SessionIsWhole(ps[1..], last, t);
    }
  }

  // ----- refusals -----

  /** A complete head that cannot be read ends the session in a 400, and nothing behind it is looked at. */
  lemma BadHeadIsRefused(lines: seq<bytes>, t: bytes)
    requires CleanLines(lines) && ReadLine(lines[0], EMPTY) == None
    ensures Serve(Cursor(JoinLines(lines) + BLANK_LINE + t, false)) == ([], true)
  {
    HeadEnds(Printed(lines, []), t);
    assert [] + t == t && JoinLines(lines) + BLANK_LINE + [] + t == JoinLines(lines) + BLANK_LINE + t;
    assert Head(JoinLines(lines) + BLANK_LINE) == JoinLines(lines);
    LinesOfJoined(lines);
  }

  /** So does one that announces too long a body. */
  lemma LongBodyIsRefused(m: bytes, path: seq<Choice>, pairs: seq<Pair>, version: bytes, headers: seq<bytes>, n: nat, t: bytes)
    requires Printable(m, path, pairs, version) && forall i :: 0 <= i < |headers| ==> CleanLine(headers[i])
    requires 10_485_760 < n <= 0x7FFF_FFFF
    ensures Serve(Cursor(JoinLines(Announcing(m, path, pairs, version, headers, n)) + BLANK_LINE + t, false)) == ([], true)
  {
    AnnouncedLength(m, path, pairs, version, headers, n, t);
  }

  // ----- paths -----

  /** No two dots in a row. */
  ghost predicate PathSafe(path: bytes) {
    forall p: nat :: !OccursAt<byte>(path, ['.', '.'], p)
  }

  lemma ReadIsSafe(c: Cursor)
    requires ReadRequest(c).0.Some?
    ensures PathSafe(ReadRequest(c).0.value.path)
  {
    var (block, c1) := ReadUntil(c, BLANK_LINE);
    var req := ReadHead(block).value;
    var line := LinesOf(Head(block))[0];
    forall p: nat ensures !OccursAt<byte>(req.path, ['.', '.'], p) {
      AcceptedPathIsSafe(line, EMPTY, p);
    }
  }

  /** Every request of every session, whatever the client sends. */
  lemma {:induction false} ServeIsSafe(c: Cursor)
    ensures forall r :: r in Serve(c).0 ==> PathSafe(r.path)
    decreases |c.rest|
  {
    if !c.closed && ReadRequest(c).0.Some? {
      ReadIsSafe(c);
      ServeIsSafe(ReadRequest(c).1);
    }
  }
}
