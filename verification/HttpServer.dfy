/** Dispatching a request to its handler, and the keep-alive loop of a connection. */
module HttpServers {
  import opened Bytes
  import opened StreamCursor
  import opened Connections
  import opened HttpParser
  import opened Pipelining
  import opened Routing

  /** What a handler or a middleware writes to the connection, and how it ends. They do not read from it. */
  datatype Reply = Reply(written: bytes, threw: bool)
  datatype Verdict = Verdict(written: bytes, pass: bool)

  type Handler = (Request, Params) -> Reply
  type Middleware = Request -> Verdict

  datatype Route = Route(method_: bytes, pattern: bytes, handler: Handler)

  /** What a server is set up with. */
  datatype Site = Site(routes: seq<Route>, middlewares: seq<Middleware>, errorPage: nat -> bytes)

  type Invocations = seq<(nat, Request, Params)>

  /** What became of a parsed request. */
  datatype Outcome = Invoked(route: nat, params: Params) | NotAllowed | NotFound | Blocked(middleware: nat)

  predicate PathFits(r: Route, req: Request) {
    Matches(Segments(r.pattern), Segments(req.path))
  }

  predicate RouteFits(r: Route, req: Request) {
    PathFits(r, req) && (r.method_ == STAR || r.method_ == req.method_)
  }

  function RouteParams(r: Route, req: Request): Params
    requires PathFits(r, req)
  {
    Bound(map[], Segments(r.pattern), Segments(req.path))
  }

  method MatchRoute(r: Route, req: Request) returns (ok: bool, params: Params)
    ensures ok <==> PathFits(r, req)
    ensures ok ==> params == RouteParams(r, req)
  {
    ok, params := Match(r.pattern, req.path, map[]);
  }

  /** The one outcome that dispatch may have. */
  ghost predicate Dispatched(routes: seq<Route>, req: Request, o: Outcome) {
    match o
    case Invoked(i, params) =>
      && i < |routes| && RouteFits(routes[i], req)
      && (forall j :: 0 <= j < i ==> !RouteFits(routes[j], req))
      && params == RouteParams(routes[i], req)
    case NotAllowed =>
      && (exists j :: 0 <= j < |routes| && PathFits(routes[j], req))
      && (forall j :: 0 <= j < |routes| ==> !RouteFits(routes[j], req))
    case NotFound => forall j :: 0 <= j < |routes| ==> !PathFits(routes[j], req)
    case Blocked(_) => false
  }

  lemma DispatchedIsUnique(routes: seq<Route>, req: Request, o1: Outcome, o2: Outcome)
    requires Dispatched(routes, req, o1) && Dispatched(routes, req, o2)
    ensures o1 == o2
  {
    assert forall j :: 0 <= j < |routes| && RouteFits(routes[j], req) ==> PathFits(routes[j], req);
  }

  /** The middlewares run in order; the first that refuses ends the request. */
  ghost predicate Handled(site: Site, req: Request, o: Outcome) {
    if o.Blocked? then
      && o.middleware < |site.middlewares| && !site.middlewares[o.middleware](req).pass
      && forall j :: 0 <= j < o.middleware ==> site.middlewares[j](req).pass
    else
      && (forall j :: 0 <= j < |site.middlewares| ==> site.middlewares[j](req).pass)
      && Dispatched(site.routes, req, o)
  }

  /** What the first n middlewares say, one after the other. */
  function Said(middlewares: seq<Middleware>, req: Request, n: nat): bytes
    requires n <= |middlewares|
  {
    Flatten(seq(n, i requires 0 <= i < n => middlewares[i](req).written))
  }

  /** The bytes that answer a request, by the middlewares and the routes alone. */
  ghost predicate IsAnswer(site: Site, req: Request, answer: bytes) {
    && (forall k :: 0 <= k < |site.middlewares| && AllPass(site.middlewares, req, k) && !site.middlewares[k](req).pass ==>
          answer == Said(site.middlewares, req, k + 1))
    && (AllPass(site.middlewares, req, |site.middlewares|) ==>
          IsRouteAnswer(site, req, Said(site.middlewares, req, |site.middlewares|), answer))
  }

  ghost predicate IsRouteAnswer(site: Site, req: Request, said: bytes, answer: bytes) {
    && (OnlyPathsFit(site.routes, req) ==> answer == said + site.errorPage(405))
    && (NoPathFits(site.routes, req) ==> answer == said + site.errorPage(404))
    && (forall i: nat :: IsEarliest(site.routes, req, i) ==> answer == said + HandlerBytes(site, req, i))
  }

  /** Some route's path fits, but no route does. */
  ghost predicate OnlyPathsFit(routes: seq<Route>, req: Request) {
    && (exists j :: 0 <= j < |routes| && PathFits(routes[j], req))
    && (forall j :: 0 <= j < |routes| ==> !RouteFits(routes[j], req))
  }

  ghost predicate NoPathFits(routes: seq<Route>, req: Request) {
    forall j :: 0 <= j < |routes| ==> !PathFits(routes[j], req)
  }

  /** What the handler of route i writes, and the 500 page if it throws. */
  function HandlerBytes(site: Site, req: Request, i: nat): bytes
    requires i < |site.routes| && PathFits(site.routes[i], req)
  {
    var reply := site.routes[i].handler(req, RouteParams(site.routes[i], req));
    reply.written + if reply.threw then site.errorPage(500) else []
  }

  lemma {:induction false} SpokenIsSaid(middlewares: seq<Middleware>, req: Request, n: nat)
    requires n <= |middlewares|
    ensures Spoken(middlewares, req, n) == Said(middlewares, req, n)
  {
    if n > 0 {
      SpokenIsSaid(middlewares, req, n - 1);
      var front := seq(n - 1, i requires 0 <= i < n - 1 => middlewares[i](req).written);
      assert seq(n, i requires 0 <= i < n => middlewares[i](req).written) == front + [middlewares[n - 1](req).written];
      FlattenLast(front, middlewares[n - 1](req).written);
    }
  }

  lemma AnswerIsAnswer(site: Site, req: Request, o: Outcome)
    requires Handled(site, req, o)
    ensures IsAnswer(site, req, Answer(site, req, o))
  {
    if o.Blocked? {
      SpokenIsSaid(site.middlewares, req, o.middleware + 1);
      forall k | 0 <= k < |site.middlewares| && AllPass(site.middlewares, req, k) && !site.middlewares[k](req).pass ensures k == o.middleware {
      }
      assert Spoken(site.middlewares, req, o.middleware + 1) + [] == Spoken(site.middlewares, req, o.middleware + 1);
    } else {
      SpokenIsSaid(site.middlewares, req, |site.middlewares|);
      RouteIsAnswered(site, req, o, Said(site.middlewares, req, |site.middlewares|));
    }
  }

  lemma RouteIsAnswered(site: Site, req: Request, o: Outcome, said: bytes)
    requires Dispatched(site.routes, req, o)
    ensures IsRouteAnswer(site, req, said, said + Response(site, req, o))
  {
    EachOutcome(site.routes, req, o);
  }

  /** The bytes for each request that was served. */
  ghost predicate AreReplies(site: Site, served: seq<Served>, replies: seq<bytes>) {
    |replies| == |served|
    && forall i :: 0 <= i < |served| ==> if served[i].open then IsAnswer(site, served[i].req, replies[i]) else replies[i] == []
  }

  function RepliesOf(site: Site, served: seq<Served>): (r: seq<bytes>)
    ensures |r| == |served|
  {
    seq(|served|, i requires 0 <= i < |served| => if served[i].open then Answer(site, served[i].req, served[i].outcome) else [])
  }

  lemma {:induction false} AnswersAreReplies(site: Site, served: seq<Served>)
    ensures Answers(site, served) == Flatten(RepliesOf(site, served))
  {
    if served != [] {
      var front, s := served[..|served| - 1], served[|served| - 1];
      AnswersAreReplies(site, front);
      var last := if s.open then Answer(site, s.req, s.outcome) else [];
      assert RepliesOf(site, served) == RepliesOf(site, front) + [last];
      FlattenLast(RepliesOf(site, front), last);
    }
  }

  lemma HandledAreReplies(site: Site, served: seq<Served>)
    requires AllHandled(site, served)
    ensures AreReplies(site, served, RepliesOf(site, served))
  {
    forall i | 0 <= i < |served| && served[i].open ensures IsAnswer(site, served[i].req, RepliesOf(site, served)[i]) {
      AnswerIsAnswer(site, served[i].req, served[i].outcome);
    }
  }

  // ----- the search for the route -----

  ghost predicate NoneFits(routes: seq<Route>, req: Request, n: nat) {
    n <= |routes| && forall j :: 0 <= j < n ==> !RouteFits(routes[j], req)
  }

  ghost predicate SomePath(routes: seq<Route>, req: Request, n: nat) {
    n <= |routes| && exists j :: 0 <= j < n && PathFits(routes[j], req)
  }

  lemma PathDiffers(routes: seq<Route>, req: Request, n: nat)
    requires n < |routes| && NoneFits(routes, req, n) && !PathFits(routes[n], req)
    ensures NoneFits(routes, req, n + 1) && SomePath(routes, req, n + 1) == SomePath(routes, req, n)
  {
  }

  lemma MethodDiffers(routes: seq<Route>, req: Request, n: nat)
    requires n < |routes| && NoneFits(routes, req, n) && PathFits(routes[n], req) && !RouteFits(routes[n], req)
    ensures NoneFits(routes, req, n + 1) && SomePath(routes, req, n + 1)
  {
  }

  lemma RouteFound(routes: seq<Route>, req: Request, n: nat)
    requires n < |routes| && NoneFits(routes, req, n) && RouteFits(routes[n], req)
    ensures Dispatched(routes, req, Invoked(n, RouteParams(routes[n], req)))
  {
  }

  lemma NoRouteFound(routes: seq<Route>, req: Request)
    requires NoneFits(routes, req, |routes|)
    ensures Dispatched(routes, req, if SomePath(routes, req, |routes|) then NotAllowed else NotFound)
  {
  }

  lemma NotFoundIsNone(routes: seq<Route>, req: Request, o: Outcome)
    requires Dispatched(routes, req, o) && !o.Invoked?
    ensures NoneFits(routes, req, |routes|) && (o == if SomePath(routes, req, |routes|) then NotAllowed else NotFound)
  {
  }

  // ----- what registration order means -----

  /** The outcome once a further route is registered: a request that had its route keeps it. */
  function WithRoute(n: nat, r: Route, req: Request, o: Outcome): Outcome {
    if o.Invoked? || o.Blocked? then o
    else if RouteFits(r, req) then Invoked(n, RouteParams(r, req))
    else if PathFits(r, req) then NotAllowed
    else o
  }

  lemma FoundStaysFound(routes: seq<Route>, r: Route, req: Request, o: Outcome)
    requires o.Invoked? && Dispatched(routes, req, o)
    ensures Dispatched(routes + [r], req, o)
  {
    var more := routes + [r];
    assert forall j :: 0 <= j <= o.route ==> more[j] == routes[j];
  }

  lemma SearchOfPrefix(routes: seq<Route>, r: Route, req: Request)
    ensures NoneFits(routes + [r], req, |routes|) == NoneFits(routes, req, |routes|)
    ensures SomePath(routes + [r], req, |routes|) == SomePath(routes, req, |routes|)
  {
    var more := routes + [r];
    assert forall j :: 0 <= j < |routes| ==> more[j] == routes[j];
  }

  lemma RouteAdded(routes: seq<Route>, r: Route, req: Request, o: Outcome)
    requires Dispatched(routes, req, o)
    ensures Dispatched(routes + [r], req, WithRoute(|routes|, r, req, o))
  {
    if o.Invoked? {
      FoundStaysFound(routes, r, req, o);
    } else {
      var more, n := routes + [r], |routes|;
      NotFoundIsNone(routes, req, o);
      SearchOfPrefix(routes, r, req);
      if RouteFits(r, req) {
        RouteFound(more, req, n);
      } else {
        if PathFits(r, req) {
          MethodDiffers(more, req, n);
        } else {
          PathDiffers(more, req, n);
        }
        NoRouteFound(more, req);
      }
    }
  }

  /** A further middleware is asked last, and only about requests that all others let pass. */
  lemma MiddlewareAdded(site: Site, mw: Middleware, req: Request, o: Outcome)
    requires Handled(site, req, o)
    ensures Handled(site.(middlewares := site.middlewares + [mw]), req,
                    if o.Blocked? || mw(req).pass then o else Blocked(|site.middlewares|))
  {
    var more := site.middlewares + [mw];
    assert forall j :: 0 <= j < |site.middlewares| ==> more[j] == site.middlewares[j];
  }

  // ----- what was served, and what was answered -----

  /** `open`: the connection was still open when the request had been parsed. */
  datatype Served = Served(req: Request, outcome: Outcome, open: bool)

  function Requests(served: seq<Served>): seq<Request> {
    if served == [] then [] else Requests(served[..|served| - 1]) + [served[|served| - 1].req]
  }

  function CallFor(s: Served): Invocations {
    if s.outcome.Invoked? then [(s.outcome.route, s.req, s.outcome.params)] else []
  }

  /** The handler calls that were made for the requests: one for each that found its route, in order. */
  function Calls(served: seq<Served>): Invocations {
    if served == [] then [] else Calls(served[..|served| - 1]) + CallFor(served[|served| - 1])
  }

  ghost predicate AllHandled(site: Site, served: seq<Served>) {
    forall i :: 0 <= i < |served| ==> Handled(site, served[i].req, served[i].outcome)
  }

  predicate AllOpen(served: seq<Served>) {
    forall i :: 0 <= i < |served| ==> served[i].open
  }

  /** What the first n middlewares write. */
  function Spoken(middlewares: seq<Middleware>, req: Request, n: nat): bytes
    requires n <= |middlewares|
  {
    if n == 0 then [] else Spoken(middlewares, req, n - 1) + middlewares[n - 1](req).written
  }

  ghost predicate AllPass(middlewares: seq<Middleware>, req: Request, n: nat) {
    n <= |middlewares| && forall j :: 0 <= j < n ==> middlewares[j](req).pass
  }

  lemma AskedOneMore(middlewares: seq<Middleware>, req: Request, n: nat, sent: bytes)
    requires n < |middlewares| && AllPass(middlewares, req, n)
    ensures sent + Spoken(middlewares, req, n + 1) == sent + Spoken(middlewares, req, n) + middlewares[n](req).written
    ensures middlewares[n](req).pass ==> AllPass(middlewares, req, n + 1)
  {
    assert sent + (Spoken(middlewares, req, n) + middlewares[n](req).written) == sent + Spoken(middlewares, req, n) + middlewares[n](req).written;
  }

  /** What is written for the outcome itself: the handler's reply, followed by the 500 page if it threw, or
      the page for 405 or 404. */
  function Response(site: Site, req: Request, o: Outcome): bytes {
    match o
    case Invoked(i, params) =>
      if i < |site.routes| then
        var reply := site.routes[i].handler(req, params);
        reply.written + if reply.threw then site.errorPage(500) else []
      else []
    case NotAllowed => site.errorPage(405)
    case NotFound => site.errorPage(404)
    case Blocked(_) => []
  }

  function Answer(site: Site, req: Request, o: Outcome): bytes {
    var n := if o.Blocked? && o.middleware < |site.middlewares| then o.middleware + 1 else |site.middlewares|;
    Spoken(site.middlewares, req, n) + Response(site, req, o)
  }

  lemma AnswerSplits(site: Site, req: Request, o: Outcome, sent: bytes)
    requires o.Blocked? ==> o.middleware < |site.middlewares|
    ensures sent + Answer(site, req, o)
         == if o.Blocked? then sent + Spoken(site.middlewares, req, o.middleware + 1)
            else sent + Spoken(site.middlewares, req, |site.middlewares|) + Response(site, req, o)
  {
    var n := if o.Blocked? then o.middleware + 1 else |site.middlewares|;
    assert sent + (Spoken(site.middlewares, req, n) + Response(site, req, o)) == sent + Spoken(site.middlewares, req, n) + Response(site, req, o);
  }

  /** The answers in the order of the requests. Nothing can be answered to a request that the end of the
      stream cut short, since its parse has closed the connection. */
  function Answers(site: Site, served: seq<Served>): bytes {
    if served == [] then []
    else
      var s := served[|served| - 1];
      Answers(site, served[..|served| - 1]) + if s.open then Answer(site, s.req, s.outcome) else []
  }

  /** Route i fits, and none registered before it does. */
  ghost predicate IsEarliest(routes: seq<Route>, req: Request, i: nat) {
    i < |routes| && RouteFits(routes[i], req) && forall j :: 0 <= j < i ==> !RouteFits(routes[j], req)
  }

  /** Which case of the route table an outcome stands for. */
  lemma EachOutcome(routes: seq<Route>, req: Request, o: Outcome)
    requires Dispatched(routes, req, o)
    ensures OnlyPathsFit(routes, req) <==> o == NotAllowed
    ensures NoPathFits(routes, req) <==> o == NotFound
    ensures forall i: nat :: IsEarliest(routes, req, i) ==> o == Invoked(i, RouteParams(routes[i], req))
  {
    assert forall j :: 0 <= j < |routes| && RouteFits(routes[j], req) ==> PathFits(routes[j], req);
    forall i: nat | IsEarliest(routes, req, i) ensures o == Invoked(i, RouteParams(routes[i], req)) {
      EarliestIsInvoked(routes, req, o, i);
    }
  }

  lemma EarliestIsInvoked(routes: seq<Route>, req: Request, o: Outcome, i: nat)
    requires Dispatched(routes, req, o) && IsEarliest(routes, req, i)
    ensures o == Invoked(i, RouteParams(routes[i], req))
  {
    assert PathFits(routes[i], req);
    if o.Invoked? {
      assert !(o.route < i) && !(i < o.route);
    }
  }

  class HttpServer {
    var routes: seq<Route>
    var middlewares: seq<Middleware>
    const errorPage: nat -> bytes    // the bytes that send_error writes for a status code
    var invoked: Invocations         // every handler call so far

    constructor (errorPage: nat -> bytes)
      ensures View() == Site([], [], errorPage) && invoked == []
    {
      routes, middlewares, invoked := [], [], [];
      this.errorPage := errorPage;
    }

    function View(): Site
      reads this`routes, this`middlewares
    {
      Site(routes, middlewares, errorPage)
    }

    method AddRoute(method_: bytes, path: bytes, handler: Handler)
      modifies this`routes
      ensures routes == old(routes) + [Route(method_, path, handler)]
      ensures forall req, o :: Dispatched(old(routes), req, o) ==>
                Dispatched(routes, req, WithRoute(|old(routes)|, Route(method_, path, handler), req, o))
    {
      var r := Route(method_, path, handler);
      forall req, o | Dispatched(routes, req, o) ensures Dispatched(routes + [r], req, WithRoute(|routes|, r, req, o)) {
        RouteAdded(routes, r, req, o);
      }
      routes := routes + [r];
    }

    method Use(mw: Middleware)
      modifies this`middlewares
      ensures middlewares == old(middlewares) + [mw]
      ensures forall req, o :: Handled(old(View()), req, o) ==>
                Handled(View(), req, if o.Blocked? || mw(req).pass then o else Blocked(|old(middlewares)|))
    {
      forall req, o | Handled(View(), req, o)
        ensures Handled(View().(middlewares := middlewares + [mw]), req,
                        if o.Blocked? || mw(req).pass then o else Blocked(|middlewares|))
      {
        MiddlewareAdded(View(), mw, req, o);
      }
      middlewares := middlewares + [mw];
    }

    /** Hands bytes to the connection; a closed one takes none. */
    method Say(conn: Connection, data: bytes)
      modifies conn`closed, conn.socket`sends, conn.socket`delivered
      ensures old(conn.closed) ==> conn.closed
      ensures Healthy(old(conn.socket.sends)) ==>
                && Healthy(conn.socket.sends) && conn.closed == old(conn.closed)
                && conn.socket.delivered == old(conn.socket.delivered) + if conn.closed then [] else data
    {
      var n := conn.Write(data);
      assert data[..|data|] == data && data[..0] == [];
    }

    method SendError(conn: Connection, code: nat)
      modifies conn`closed, conn.socket`sends, conn.socket`delivered
      ensures old(conn.closed) ==> conn.closed
      ensures Healthy(old(conn.socket.sends)) ==>
                && Healthy(conn.socket.sends) && conn.closed == old(conn.closed)
                && conn.socket.delivered == old(conn.socket.delivered) + if conn.closed then [] else errorPage(code)
    {
      Say(conn, errorPage(code));
    }

    /** Calls the handler; an exception is answered with 500 if the connection is still open. */
    method Invoke(i: nat, req: Request, params: Params, conn: Connection)
      requires i < |routes|
      modifies this`invoked, conn`closed, conn.socket`sends, conn.socket`delivered
      ensures invoked == old(invoked) + [(i, req, params)]
      ensures old(conn.closed) ==> conn.closed
      ensures Healthy(old(conn.socket.sends)) ==>
                && Healthy(conn.socket.sends) && conn.closed == old(conn.closed)
                && conn.socket.delivered
                   == old(conn.socket.delivered) + if conn.closed then [] else Response(View(), req, Invoked(i, params))
    {
      invoked := invoked + [(i, req, params)];
      var reply := routes[i].handler(req, params);
      Say(conn, reply.written);
      if reply.threw && !conn.closed {
        SendError(conn, 500);
      }
    }

    /** The search through the routes in the order of their registration. */
    method FindRoute(req: Request) returns (o: Outcome)
      ensures Dispatched(routes, req, o)
      ensures |routes| == 1 ==>
                var r := routes[0];
                var fits := Filling(Segments(r.pattern), Segments(req.path));
                && (o.Invoked? <==> fits && (r.method_ == ['*'] || r.method_ == req.method_))
                && (o == NotAllowed <==> fits && r.method_ != ['*'] && r.method_ != req.method_)
                && (o == NotFound <==> !fits)
    {
      if |routes| == 1 {
        MatchesIff(Segments(routes[0].pattern), Segments(req.path));
      }
      var pathMatched := false;
      for i := 0 to |routes|
        invariant NoneFits(routes, req, i) && pathMatched == SomePath(routes, req, i)
      {
        var ok, params := MatchRoute(routes[i], req);
        if !ok {
          PathDiffers(routes, req, i);
          continue;
        }
        pathMatched := true;
        if routes[i].method_ != STAR && routes[i].method_ != req.method_ {
          MethodDiffers(routes, req, i);
          continue;
        }
        RouteFound(routes, req, i);
        return Invoked(i, params);
      }
      NoRouteFound(routes, req);
      return if pathMatched then NotAllowed else NotFound;
    }

    /** Calls the handler of the route found, or answers 405 or 404. */
    method Dispatch(req: Request, conn: Connection) returns (o: Outcome)
      modifies this`invoked, conn`closed, conn.socket`sends, conn.socket`delivered
      ensures Dispatched(routes, req, o)
      ensures !old(conn.closed) && Healthy(old(conn.socket.sends)) && OnlyPathsFit(routes, req) ==>
                conn.socket.delivered == old(conn.socket.delivered) + errorPage(405)
      ensures !old(conn.closed) && Healthy(old(conn.socket.sends)) && NoPathFits(routes, req) ==>
                conn.socket.delivered == old(conn.socket.delivered) + errorPage(404)
      ensures forall i: nat :: !old(conn.closed) && Healthy(old(conn.socket.sends)) && IsEarliest(routes, req, i) ==>
                var reply := routes[i].handler(req, RouteParams(routes[i], req));
                conn.socket.delivered == old(conn.socket.delivered) + (reply.written + if reply.threw then errorPage(500) else [])
      ensures invoked == old(invoked) + if o.Invoked? then [(o.route, req, o.params)] else []
      ensures old(conn.closed) ==> conn.closed
      ensures Healthy(old(conn.socket.sends)) ==>
                && Healthy(conn.socket.sends) && conn.closed == old(conn.closed)
                && conn.socket.delivered == old(conn.socket.delivered) + if conn.closed then [] else Response(View(), req, o)
    {
      o := FindRoute(req);
      EachOutcome(routes, req, o);
      if o.Invoked? {
        Invoke(o.route, req, o.params, conn);
      } else if o == NotAllowed {
        SendError(conn, 405);
      } else {
        SendError(conn, 404);
      }
    }

    /** Asks the middlewares in order, up to the first that refuses. */
    method AskMiddlewares(req: Request, conn: Connection) returns (refused: Option<nat>)
      modifies conn`closed, conn.socket`sends, conn.socket`delivered
      ensures match refused
              case None => AllPass(middlewares, req, |middlewares|)
              case Some(i) => i < |middlewares| && !middlewares[i](req).pass && AllPass(middlewares, req, i)
      ensures old(conn.closed) ==> conn.closed
      ensures Healthy(old(conn.socket.sends)) ==>
                && Healthy(conn.socket.sends) && conn.closed == old(conn.closed)
                && conn.socket.delivered == old(conn.socket.delivered)
                   + if conn.closed then [] else Spoken(middlewares, req, if refused.Some? then refused.value + 1 else |middlewares|)
    {
      for i := 0 to |middlewares|
        invariant AllPass(middlewares, req, i)
        invariant old(conn.closed) ==> conn.closed
        invariant Healthy(old(conn.socket.sends)) ==>
                    && Healthy(conn.socket.sends) && conn.closed == old(conn.closed)
                    && conn.socket.delivered == old(conn.socket.delivered) + if conn.closed then [] else Spoken(middlewares, req, i)
      {
        var verdict := middlewares[i](req);
        AskedOneMore(middlewares, req, i, old(conn.socket.delivered));
        Say(conn, verdict.written);
        if !verdict.pass {
          return Some(i);
        }
      }
      return None;
    }

    /** The middlewares and, if all pass, the dispatch. */
    method Handle(req: Request, conn: Connection) returns (o: Outcome)
      modifies this`invoked, conn`closed, conn.socket`sends, conn.socket`delivered
      ensures Handled(View(), req, o)
      ensures invoked == old(invoked) + if o.Invoked? then [(o.route, req, o.params)] else []
      ensures old(conn.closed) ==> conn.closed
      ensures Healthy(old(conn.socket.sends)) ==>
                && Healthy(conn.socket.sends) && conn.closed == old(conn.closed)
                && conn.socket.delivered == old(conn.socket.delivered) + if conn.closed then [] else Answer(View(), req, o)
    {
      ghost var sent := conn.socket.delivered;
      var refused := AskMiddlewares(req, conn);
      if refused.Some? {
        AnswerSplits(View(), req, Blocked(refused.value), sent);
        return Blocked(refused.value);
      }
      o := Dispatch(req, conn);
      AnswerSplits(View(), req, o, sent);
    }

    /** One turn of the keep-alive loop serves the first request of what the stream holds. */
    method ServeNext(conn: Connection) returns (next: Option<Served>, bad: bool)
      requires !conn.closed
      modifies this`invoked, conn, conn.socket
      ensures next == None ==> ReadRequest(old(conn.View())).0 == None && bad == !ReadRequest(old(conn.View())).1.closed
      ensures next.Some? ==> !bad && ReadRequest(old(conn.View())).0 == Some(next.value.req)
                             && next.value.open == !ReadRequest(old(conn.View())).1.closed
                             && Handled(View(), next.value.req, next.value.outcome)
      ensures next.Some? && (!conn.closed || Healthy(old(conn.socket.sends))) ==> conn.View() == ReadRequest(old(conn.View())).1
      ensures |conn.View().rest| <= |old(conn.View().rest)| && (next.Some? ==> |conn.View().rest| < |old(conn.View().rest)|)
      ensures invoked == old(invoked) + if next.Some? then CallFor(next.value) else []
      ensures Healthy(old(conn.socket.sends)) ==>
                && Healthy(conn.socket.sends)
                && conn.socket.delivered == old(conn.socket.delivered) + TurnBytes(View(), next, bad)
    {
      var req := new HttpRequest();
      var ok := Parse(conn, req);
      if !ok {
        bad := !conn.closed;
        if !conn.closed {
          SendError(conn, 400);
        }
        return None, bad;
      }
      var r, open := req.View(), !conn.closed;
      var o := Handle(r, conn);
      return Some(Served(r, o, open)), false;
    }

    /** What the loop has done so far, on a connection that held c0 when it began. */
    ghost predicate Recorded(conn: Connection, c0: Cursor, served: seq<Served>, bad: bool, before: Invocations, sent: bytes, healthy: bool)
      reads this, conn, conn.socket
    {
      && AllHandled(View(), served) && Requests(served) <= Serve(c0).0 && invoked == before + Calls(served)
      && (healthy ==> Healthy(conn.socket.sends) && conn.socket.delivered == sent + Answers(View(), served) + LastPage(View(), bad))
    }

    /** The body of the loop; `going` unless it breaks out. */
    method Turn(conn: Connection, soFar: seq<Served>, ghost c0: Cursor, ghost before: Invocations, ghost sent: bytes, ghost healthy: bool)
      returns (served: seq<Served>, going: bool, bad: bool)
      requires !conn.closed && Recorded(conn, c0, soFar, false, before, sent, healthy) && Leaves(c0, soFar, conn.View())
      modifies this`invoked, conn, conn.socket
      ensures Recorded(conn, c0, served, bad, before, sent, healthy)
      ensures going ==> !bad && |conn.View().rest| < |old(conn.View().rest)|
      ensures going && (!conn.closed || healthy) ==> Leaves(c0, served, conn.View())
      ensures !going && healthy ==> Complete(c0, served, bad)
    {
      ghost var c := conn.View();
      var next;
      next, bad := ServeNext(conn);
      if next == None {
        LastTurn(c0, soFar, c, bad);
        NoPageYet(View(), soFar, sent);
        return soFar, false, bad;
      }
      RecordsGrow(View(), soFar, next.value, before, sent);
      NextTurn(c0, soFar, c, next.value);
      return soFar + [next.value], next.value.req.KeepAlive(), false;
    }

    /** The keep-alive loop: what was served, in order, and whether the session ended in a 400. Without a
        failing write that is what the stream holds, and what was delivered are the answers in the order of
        the requests and, if it ended in a 400, that page; a failing write can only cut it short. No path
        with two dots in a row reaches a handler. */
    method HandleConnection(conn: Connection) returns (served: seq<Served>, bad: bool, ghost replies: seq<bytes>)
      modifies this`invoked, conn, conn.socket
      ensures Requests(served) <= Serve(old(conn.View())).0
      ensures AllHandled(View(), served) && invoked == old(invoked) + Calls(served)
      ensures forall k :: |old(invoked)| <= k < |invoked| ==> PathSafe(invoked[k].1.path)
      ensures Healthy(old(conn.socket.sends)) ==>
                && (Requests(served), bad) == Serve(old(conn.View()))
                && (AllOpen(served) <==> WholeToEnd(old(conn.View())))
                && conn.socket.delivered == old(conn.socket.delivered) + Flatten(replies) + if bad then errorPage(400) else []
      ensures AreReplies(View(), served, replies)
      ensures Flatten(replies) == Answers(View(), served)
    {
      ghost var c0, before, sent, healthy := conn.View(), invoked, conn.socket.delivered, Healthy(conn.socket.sends);
      served, bad := [], false;
      StartOfSession(View(), c0, sent);
      var going := true;
      while !conn.closed
        invariant going && !bad && Recorded(conn, c0, served, false, before, sent, healthy)
        invariant !conn.closed || healthy ==> Leaves(c0, served, conn.View())
        decreases |conn.View().rest|
      {
        served, going, bad := Turn(conn, served, c0, before, sent, healthy);
        if !going {
          break;
        }
      }
      if going {
        EndOfSession(c0, served, conn.View());
      }
      SafeCalls(c0, served, before);
      replies := RepliesOf(View(), served);
      HandledAreReplies(View(), served);
      AnswersAreReplies(View(), served);
    }
  }

  function LastPage(site: Site, bad: bool): bytes {
    if bad then site.errorPage(400) else []
  }

  /** What one turn delivers. */
  function TurnBytes(site: Site, next: Option<Served>, bad: bool): bytes {
    match next
    case Some(s) => if s.open then Answer(site, s.req, s.outcome) else []
    case None => LastPage(site, bad)
  }

  /** A session that found c0 has served these requests, and c is what it has left. */
  ghost predicate Leaves(c0: Cursor, served: seq<Served>, c: Cursor) {
    && Serve(c0) == (Requests(served) + Serve(c).0, Serve(c).1)
    && (WholeToEnd(c0) <==> AllOpen(served) && WholeToEnd(c))
  }

  /** These requests are the whole session. */
  ghost predicate Complete(c0: Cursor, served: seq<Served>, bad: bool) {
    Serve(c0) == (Requests(served), bad) && (WholeToEnd(c0) <==> AllOpen(served))
  }

  lemma StartOfSession(site: Site, c: Cursor, sent: bytes)
    ensures Leaves(c, [], c) && AllHandled(site, []) && sent + Answers(site, []) + LastPage(site, false) == sent
  {
    assert [] + Serve(c).0 == Serve(c).0;
  }

  /** A request has been served: the records grow by it. */
  lemma RecordsGrow(site: Site, served: seq<Served>, s: Served, before: Invocations, sent: bytes)
    requires AllHandled(site, served) && Handled(site, s.req, s.outcome)
    ensures AllHandled(site, served + [s])
    ensures before + Calls(served + [s]) == before + Calls(served) + CallFor(s)
    ensures sent + Answers(site, served + [s]) + LastPage(site, false)
         == sent + Answers(site, served) + LastPage(site, false) + TurnBytes(site, Some(s), false)
  {
    HandledGrow(site, served, s);
    CallsGrow(served, s, before);
    AnswersGrow(site, served, s, sent);
    NoPageYet(site, served, sent);
    NoPageYet(site, served + [s], sent);
  }

  lemma HandledGrow(site: Site, served: seq<Served>, s: Served)
    requires AllHandled(site, served) && Handled(site, s.req, s.outcome)
    ensures AllHandled(site, served + [s])
  {
    forall i | 0 <= i <= |served| ensures Handled(site, (served + [s])[i].req, (served + [s])[i].outcome) {
      assert i < |served| ==> (served + [s])[i] == served[i];
    }
  }

  lemma CallsGrow(served: seq<Served>, s: Served, before: Invocations)
    ensures before + Calls(served + [s]) == before + Calls(served) + CallFor(s)
  {
    assert (served + [s])[..|served|] == served;
    assert before + (Calls(served) + CallFor(s)) == before + Calls(served) + CallFor(s);
  }

  lemma AnswersGrow(site: Site, served: seq<Served>, s: Served, sent: bytes)
    ensures sent + Answers(site, served + [s]) == sent + Answers(site, served) + TurnBytes(site, Some(s), false)
  {
    assert (served + [s])[..|served|] == served;
    var more := TurnBytes(site, Some(s), false);
    assert sent + (Answers(site, served) + more) == sent + Answers(site, served) + more;
  }

  lemma NoPageYet(site: Site, served: seq<Served>, sent: bytes)
    ensures sent + Answers(site, served) + LastPage(site, false) == sent + Answers(site, served)
  {
  }

  lemma ServeUnfolds(c: Cursor, r: Request)
    requires !c.closed && ReadRequest(c).0 == Some(r)
    ensures var c1 := ReadRequest(c).1;
            if r.KeepAlive() then
              Serve(c) == ([r] + Serve(c1).0, Serve(c1).1) && (WholeToEnd(c) <==> !c1.closed && WholeToEnd(c1))
            else Serve(c) == ([r], false) && (WholeToEnd(c) <==> !c1.closed)
  {
  }

  /** And if it keeps the connection, the rest is left. */
  lemma NextTurn(c0: Cursor, served: seq<Served>, c: Cursor, s: Served)
    requires !c.closed && Leaves(c0, served, c) && ReadRequest(c).0 == Some(s.req) && s.open == !ReadRequest(c).1.closed
    ensures Requests(served + [s]) <= Serve(c0).0
    ensures if s.req.KeepAlive() then Leaves(c0, served + [s], ReadRequest(c).1) else Complete(c0, served + [s], false)
  {
    ServeUnfolds(c, s.req);
    AllOpenLast(served, s);
    var rest := if s.req.KeepAlive() then Serve(ReadRequest(c).1).0 else [];
    assert s.req.KeepAlive() || [s.req] + rest == [s.req];
    OneMore(Serve(c0).0, served, s, Serve(c).0, rest);
  }

  lemma AllOpenLast(served: seq<Served>, s: Served)
    ensures AllOpen(served + [s]) <==> AllOpen(served) && s.open
  {
    if AllOpen(served + [s]) {
      forall i | 0 <= i < |served| ensures served[i].open {
        assert (served + [s])[i].open;
      }
      assert (served + [s])[|served|].open;
    }
  }

  lemma OneMore(whole: seq<Request>, served: seq<Served>, s: Served, left: seq<Request>, rest: seq<Request>)
    requires whole == Requests(served) + left && left == [s.req] + rest
    ensures Requests(served + [s]) <= whole && whole == Requests(served + [s]) + rest
    ensures rest == [] ==> whole == Requests(served + [s])
  {
    assert (served + [s])[..|served|] == served;
    assert Requests(served + [s]) == Requests(served) + [s.req];
  }

  /** No further request can be read. */
  lemma LastTurn(c0: Cursor, served: seq<Served>, c: Cursor, bad: bool)
    requires !c.closed && Leaves(c0, served, c) && ReadRequest(c).0 == None && bad == !ReadRequest(c).1.closed
    ensures Complete(c0, served, bad)
  {
    assert Requests(served) + [] == Requests(served);
  }

  lemma EndOfSession(c0: Cursor, served: seq<Served>, c: Cursor)
    requires c.closed
    ensures Leaves(c0, served, c) ==> Complete(c0, served, false)
  {
    assert Requests(served) + [] == Requests(served);
  }

  lemma {:induction false} CallsAreServed(served: seq<Served>)
    ensures forall k :: 0 <= k < |Calls(served)| ==> Calls(served)[k].1 in Requests(served)
  {
    if served != [] {
      CallsAreServed(served[..|served| - 1]);
    }
  }

  lemma SafeCalls(c: Cursor, served: seq<Served>, before: Invocations)
    requires Requests(served) <= Serve(c).0
    ensures forall k :: |before| <= k < |before + Calls(served)| ==> PathSafe((before + Calls(served))[k].1.path)
  {
    ServeIsSafe(c);
    CallsAreServed(served);
    forall k | |before| <= k < |before + Calls(served)| ensures PathSafe((before + Calls(served))[k].1.path) {
      var r := Calls(served)[k - |before|].1;
      assert r in Requests(served);
      assert r in Serve(c).0;
    }
  }

  /** A whole session on a new connection, whether its last request asks to close or the client just ends it:
      however the kernel cuts the stream into chunks and wake-ups, and in whatever parts it takes the writes,
      exactly the printed requests are served, in order, with exactly their bodies, each by the handler that
      its route names, and the client receives exactly their answers. */
  method ServeStream(server: HttpServer, arrivals: seq<Arrival>, sends: seq<Departure>,
                     ghost ps: seq<Printed>, ghost last: Option<Printed>, ghost t: bytes)
    returns (served: seq<Served>, bad: bool, delivered: bytes, ghost replies: seq<bytes>)
    requires AllWellFormed(ps) && AllKeepAlive(ps) && EndsWell(last)
    requires Live(arrivals) == PrintAll(ps) + Ending(last, t) && Healthy(sends)
    modifies server`invoked
    ensures Requests(served) == Meanings(ps) + LastMeaning(last) && !bad
    ensures AllHandled(server.View(), served) && AllOpen(served)
    ensures server.invoked == old(server.invoked) + Calls(served)
    ensures delivered == Flatten(replies) && AreReplies(server.View(), served, replies)
  {
    var socket := new Socket(arrivals, sends);
    var conn := new Connection(socket);
    ServeSession(ps, last, t);
    SessionIsWhole(ps, last, t);
    served, bad, replies := server.HandleConnection(conn);
    delivered := socket.delivered;
    NoPageYet(server.View(), served, []);
  }
}
