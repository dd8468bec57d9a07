/** HTTP/1.1 requests: parsing one from a connection, and printing one. */
module HttpParser {
  import opened Bytes
  import opened StreamCursor
  import opened Connections
  import opened UrlCodec
  import opened HttpText

  const CRLF: bytes := ['\r', '\n']
  const BLANK_LINE: bytes := ['\r', '\n', '\r', '\n']
  const MAX_BODY: int := 10 * 1024 * 1024

  type Headers = map<bytes, bytes>

  datatype Request = Request(method_: bytes, path: bytes, version: bytes, body: bytes, headers: Headers, query: Query)
  {
    function Header(key: bytes): bytes {
      if Lower(key) in headers then headers[Lower(key)] else []
    }

    function ContentLength(): int {
      var cl := Header("content-length");
      if cl == [] then -1 else match Stoi(cl) case None => -1 case Some(n) => n
    }

    predicate KeepAlive() {
      var c := Lower(Header("connection"));
      if version == "HTTP/1.1" then c != "close" else c == "keep-alive"
    }
  }

  const EMPTY: Request := Request([], [], [], [], map[], map[])

  // ----- what the parts mean -----

  /** The request with the fields of its first line filled in; None where the line is refused. */
  function ReadLine(line: bytes, req: Request): Option<Request> {
    var (m, r1) := Word(line);
    var (url, r2) := Word(r1);
    var (version, _) := Word(r2);
    if m == [] || url == [] || version == [] then None
    else
      var q := Find<byte>(url, ['?']);
      var path := if q == None then Decode(url) else Decode(url[..q.value]);
      var query := if q == None then req.query else AddPairs(req.query, Pieces<byte>(url[q.value + 1..], '&'));
      if Find<byte>(path, ['.', '.']).Some? then None
      else Some(req.(method_ := Upper(m), path := path, version := version, query := query))
  }

  /** A header line without a colon or without a name changes nothing. */
  function AddHeader(h: Headers, line: bytes): Headers {
    match Find<byte>(line, [':'])
    case None => h
    case Some(colon) =>
      var key := Lower(Trim(line[..colon]));
      if key == [] then h else h[key := Trim(line[colon + 1..])]
  }

  /** Header lines up to the first empty one. */
  function AddHeaders(h: Headers, lines: seq<bytes>): Headers
    decreases |lines|
  {
    if lines == [] || lines[0] == [] then h else AddHeaders(AddHeader(h, lines[0]), lines[1..])
  }

  function StripCr(line: bytes): bytes {
    if line != [] && line[|line| - 1] == '\r' then line[..|line| - 1] else line
  }

  function StripAll(lines: seq<bytes>): (r: seq<bytes>)
    ensures |r| == |lines|
  {
    if lines == [] then [] else [StripCr(lines[0])] + StripAll(lines[1..])
  }

  function LinesOf(block: bytes): seq<bytes> {
    StripAll(Pieces<byte>(block, '\n'))
  }

  /** The header block without the four bytes that end it. */
  function Head(block: bytes): bytes {
    if |block| >= 4 then block[..|block| - 4] else block
  }

  /** The request without its body. */
  function ReadHead(block: bytes): Option<Request> {
    var lines := LinesOf(Head(block));
    if lines == [] then None
    else match ReadLine(lines[0], EMPTY)
      case None => None
      case Some(r) => Some(r.(headers := AddHeaders(map[], lines[1..])))
  }

  function ReadBody(req: Request, c: Cursor): (Option<Request>, Cursor) {
    var cl := req.ContentLength();
    if cl <= 0 then (Some(req), c)
    else if cl > MAX_BODY then (None, c)
    else
      var (body, c') := ReadExact(c, cl);
      (Some(req.(body := body)), c')
  }

  /** One request from the cursor; None where the parse fails. */
  function ReadRequest(c: Cursor): (r: (Option<Request>, Cursor))
    ensures |r.1.rest| <= |c.rest|
    ensures r.0.Some? ==> |r.1.rest| < |c.rest|
  {
    var (block, c1) := ReadUntil(c, BLANK_LINE);
    if block == [] then (None, c1)
    else match ReadHead(block)
      case None => (None, c1)
      case Some(req) => ReadBody(req, c1)
  }

  // ----- the parser -----

  class HttpRequest {
    var method_: bytes
    var path: bytes
    var version: bytes
    var body: bytes
    var headers: Headers
    var query: Query

    constructor ()
      ensures View() == EMPTY
    {
      method_, path, version, body, headers, query := [], [], [], [], map[], map[];
    }

    function View(): Request
      reads this
    {
      Request(method_, path, version, body, headers, query)
    }
  }

  /** The same word with every letter from a to z (codes 97 to 122) as its capital. */
  predicate InCapitals(word: bytes, capitals: bytes) {
    |capitals| == |word|
    && forall i :: 0 <= i < |word| ==> capitals[i] as int == word[i] as int - if 97 <= word[i] as int <= 122 then 32 else 0
  }

  lemma UpperIsCapitals(word: bytes)
    ensures InCapitals(word, Upper(word))
  {
    forall i | 0 <= i < |word| ensures Upper(word)[i] as int == word[i] as int - if 97 <= word[i] as int <= 122 then 32 else 0 {
      CaseAt(word, i);
    }
  }

  method ParseRequestLine(line: bytes, req: HttpRequest) returns (ok: bool)
    modifies req`method_, req`path, req`version, req`query
    ensures ok == ReadLine(line, old(req.View())).Some?
    ensures ok ==> req.View() == ReadLine(line, old(req.View())).value
    ensures ok ==> Find<byte>(req.path, ['.', '.']) == None
    ensures ok ==> InCapitals(Word(line).0, req.method_)
  {
    var (m, r1) := Word(line);
    req.method_ := m;
    if m == [] {
      return false;
    }
    var (url, r2) := Word(r1);
    if url == [] {
      return false;
    }
    var (version, _) := Word(r2);
    req.version := version;
    if version == [] {
      return false;
    }
    req.method_ := Upper(m);
    UpperIsCapitals(m);
    var q := Find<byte>(url, ['?']);
    if q == None {
      req.path := UrlDecode(url);
    } else {
      req.path := UrlDecode(url[..q.value]);
      req.query := ParseQueryString(url[q.value + 1..], req.query);
    }
    return Find<byte>(req.path, ['.', '.']) == None;
  }

  method ParseHeaderLine(line: bytes, req: HttpRequest) returns (ok: bool)
    modifies req`headers
    ensures req.headers == AddHeader(old(req.headers), line)
    ensures !ok ==> req.headers == old(req.headers)
  {
    var colon := Find<byte>(line, [':']);
    if colon == None {
      return false;
    }
    var key := Lower(Trim(line[..colon.value]));
    var val := Trim(line[colon.value + 1..]);
    if key == [] {
      return false;
    }
    req.headers := req.headers[key := val];
    return true;
  }

  lemma FirstLine(block: bytes)
    requires block != []
    ensures var p := Find<byte>(block, ['\n']);
            var line := if p == None then block else block[..p.value];
            var rest := if p == None then [] else block[p.value + 1..];
            LinesOf(block) == [StripCr(line)] + LinesOf(rest)
  {
    var p := Find<byte>(block, ['\n']);
    var line := if p == None then block else block[..p.value];
    var rest := if p == None then [] else block[p.value + 1..];
    assert Pieces<byte>(block, '\n') == [line] + Pieces<byte>(rest, '\n');
  }

  /** A line ends at the line feed, and one carriage return before that is dropped; this says it of every text. */
  lemma LinesAre(line: bytes, rest: bytes)
    requires '\n' !in line
    ensures LinesOf([]) == [] && LinesOf(line + ['\r', '\n'] + rest) == [line] + LinesOf(rest)
    ensures line == [] || line[|line| - 1] != '\r' ==> LinesOf(line + ['\n'] + rest) == [line] + LinesOf(rest)
    ensures line != [] && line[|line| - 1] != '\r' ==> LinesOf(line) == [line]
  {
    assert line + ['\r', '\n'] + rest == (line + ['\r']) + ['\n'] + rest;
    LineIs(line + ['\r'], rest);
    CarriageReturns(line);
    LineIs(line, rest);
    if line != [] {
      LastLineIs(line);
    }
  }

  lemma LineIs(line: bytes, rest: bytes)
    requires '\n' !in line
    ensures LinesOf(line + ['\n'] + rest) == [StripCr(line)] + LinesOf(rest)
  {
    PiecesAre<byte>(line, rest, '\n');
    LinesCons(line, rest);
  }

  lemma LastLineIs(line: bytes)
    requires '\n' !in line && line != []
    ensures LinesOf(line) == [StripCr(line)]
  {
    PiecesAre<byte>(line, [], '\n');
    OneLine(line);
  }

  lemma CarriageReturns(line: bytes)
    ensures StripCr(line + ['\r']) == line
    ensures line == [] || line[|line| - 1] != '\r' ==> StripCr(line) == line
  {
    assert (line + ['\r'])[..|line|] == line;
  }

  lemma OneLine(line: bytes)
    ensures StripAll([line]) == [StripCr(line)]
  {
    assert [line][1..] == [];
  }

  lemma LinesCons(line: bytes, rest: bytes)
    ensures StripAll([line] + Pieces<byte>(rest, '\n')) == [StripCr(line)] + LinesOf(rest)
  {
    assert ([line] + Pieces<byte>(rest, '\n'))[1..] == Pieces<byte>(rest, '\n');
  }

  /** getline in a loop, dropping the carriage returns. */
  method SplitLines(block: bytes) returns (lines: seq<bytes>)
    ensures lines == LinesOf(block)
  {
    lines := [];
    var rest := block;
    while rest != []
      invariant lines + LinesOf(rest) == LinesOf(block)
      decreases |rest|
    {
      FirstLine(rest);
      var p := Find<byte>(rest, ['\n']);
      var line := if p == None then rest else rest[..p.value];
      rest := if p == None then [] else rest[p.value + 1..];
      if line != [] && line[|line| - 1] == '\r' {
        line := line[..|line| - 1];
      }
      assert lines + ([line] + LinesOf(rest)) == lines + [line] + LinesOf(rest);
      lines := lines + [line];
    }
  }

  method ParseHead(block: bytes, req: HttpRequest) returns (ok: bool)
    requires req.View() == EMPTY
    modifies req`method_, req`path, req`version, req`query, req`headers
    ensures ok == ReadHead(block).Some?
    ensures ok ==> req.View() == ReadHead(block).value
  {
    var lines := SplitLines(Head(block));
    if lines == [] {
      return false;
    }
    ok := ParseRequestLine(lines[0], req);
    if !ok {
      return;
    }
    ghost var r := req.View();
    var i := 1;
    while i < |lines|
      invariant 1 <= i <= |lines|
      invariant AddHeaders(req.headers, lines[i..]) == AddHeaders(map[], lines[1..])
      invariant req.View() == r.(headers := req.headers)
    {
      if lines[i] == [] {
        break;
      }
      assert lines[i..][1..] == lines[i + 1..];
      var _ := ParseHeaderLine(lines[i], req);
      i := i + 1;
    }
  }

  method Parse(conn: Connection, req: HttpRequest) returns (ok: bool)
    requires req.View() == EMPTY
    modifies req, conn`closed, conn`readBuf, conn.socket`arrivals
    ensures var (r, c) := ReadRequest(old(conn.View()));
            conn.View() == c && ok == r.Some? && (ok ==> req.View() == r.value)
  {
    var block := conn.ReadUntil(BLANK_LINE);
    if block == [] {
      return false;
    }
    ok := ParseHead(block, req);
    if !ok {
      return;
    }
    ok := ParseBody(conn, req);
  }

  /** A body that the stream cuts short is taken as it is. */
  method ParseBody(conn: Connection, req: HttpRequest) returns (ok: bool)
    modifies req`body, conn`closed, conn`readBuf, conn.socket`arrivals
    ensures var (r, c) := ReadBody(old(req.View()), old(conn.View()));
            conn.View() == c && ok == r.Some? && (ok ==> req.View() == r.value)
  {
    var cl := req.View().ContentLength();
    if cl > 0 {
      if cl > MAX_BODY {
        return false;
      }
      req.body := conn.ReadExact(cl);
    }
    return true;
  }
}
