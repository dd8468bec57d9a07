/** Matching a request path against a route pattern. */
module Routing {
  import opened Bytes

  type Params = map<bytes, bytes>

  const STAR: bytes := ['*']

  // ----- segments -----

  function NonEmpty(ps: seq<bytes>): seq<bytes> {
    if ps == [] then [] else (if ps[0] == [] then [] else [ps[0]]) + NonEmpty(ps[1..])
  }

  function Segments(s: bytes): seq<bytes> {
    NonEmpty(Pieces<byte>(s, '/'))
  }

  predicate IsSegment(s: bytes) {
    s != [] && '/' !in s
  }

  predicate AreSegments(ps: seq<bytes>) {
    forall i :: 0 <= i < |ps| ==> IsSegment(ps[i])
  }

  lemma {:induction false} PiecesHoldNoSlash(s: bytes)
    ensures forall i :: 0 <= i < |Pieces<byte>(s, '/')| ==> '/' !in Pieces<byte>(s, '/')[i]
    decreases |s|
  {
    if s != [] {
      var p := Find<byte>(s, ['/']);
      if p == None {
        FindCharNone<byte>(s, '/');
      } else {
        forall i | 0 <= i < p.value ensures s[i] != '/' {
          OccursChar<byte>(s, '/', i);
        }
        PiecesHoldNoSlash(s[p.value + 1..]);
      }
    }
  }

  lemma {:induction false} NonEmptyKeeps(ps: seq<bytes>)
    requires forall i :: 0 <= i < |ps| ==> '/' !in ps[i]
    ensures AreSegments(NonEmpty(ps))
  {
    if ps != [] {
      NonEmptyKeeps(ps[1..]);
    }
  }

  lemma SegmentsAreSegments(s: bytes)
    ensures AreSegments(Segments(s))
  {
    PiecesHoldNoSlash(s);
    NonEmptyKeeps(Pieces<byte>(s, '/'));
  }

  lemma {:induction false} NonEmptyOf(ps: seq<bytes>)
    requires AreSegments(ps)
    ensures NonEmpty(ps) == ps
  {
    if ps != [] {
      assert IsSegment(ps[0]);
      NonEmptyOf(ps[1..]);
    }
  }

  lemma SegmentsOfJoin(ps: seq<bytes>)
    requires AreSegments(ps)
    ensures Segments(Join<byte>(ps, '/')) == ps
  {
    assert forall p :: p in ps ==> IsSegment(p);
    PiecesOfJoin<byte>(ps, '/');
    NonEmptyOf(ps);
  }

  lemma FirstSegment(s: bytes)
    requires s != []
    ensures var p := Find<byte>(s, ['/']);
            var part := if p == None then s else s[..p.value];
            var rest := if p == None then [] else s[p.value + 1..];
            Segments(s) == (if part == [] then [] else [part]) + Segments(rest)
  {
    var p := Find<byte>(s, ['/']);
    var part := if p == None then s else s[..p.value];
    var rest := if p == None then [] else s[p.value + 1..];
    assert Pieces<byte>(s, '/') == [part] + Pieces<byte>(rest, '/');
  }

  /** Slashes are skipped, and anything else up to the next slash is a segment: this says it of every text. */
  lemma SegmentsAre(a: bytes, rest: bytes)
    requires IsSegment(a)
    ensures Segments([]) == [] && Segments(['/'] + rest) == Segments(rest)
    ensures Segments(a) == [a] && Segments(a + ['/'] + rest) == [a] + Segments(rest)
  {
    LeadingSlash(rest);
    FindCharNone<byte>(a, '/');
    FirstSegment(a);
    FindChar<byte>(a, rest, '/');
    FirstSegment(a + ['/'] + rest);
    assert (a + ['/'] + rest)[..|a|] == a && (a + ['/'] + rest)[|a| + 1..] == rest;
  }

  method Split(s: bytes) returns (parts: seq<bytes>)
    ensures parts == Segments(s)
  {
    parts := [];
    var rest := s;
    while rest != []
      invariant parts + Segments(rest) == Segments(s)
      decreases |rest|
    {
      FirstSegment(rest);
      var p := Find<byte>(rest, ['/']);
      var part := if p == None then rest else rest[..p.value];
      rest := if p == None then [] else rest[p.value + 1..];
      if part != [] {
        assert parts + ([part] + Segments(rest)) == parts + [part] + Segments(rest);
        parts := parts + [part];
      }
    }
  }

  // ----- what matching means -----

  /** The position of the first * segment, or the length. */
  function FirstStar(pattern: seq<bytes>): (k: nat)
    ensures k <= |pattern| && (k < |pattern| ==> pattern[k] == STAR)
    ensures forall i :: 0 <= i < k ==> pattern[i] != STAR
  {
    if pattern == [] || pattern[0] == STAR then 0 else 1 + FirstStar(pattern[1..])
  }

  predicate IsParam(seg: bytes) {
    seg != [] && seg[0] == ':'
  }

  predicate SegmentFits(seg: bytes, part: bytes) {
    IsParam(seg) || seg == part
  }

  /** Up to the first * the segments fit one by one; then the lengths agree, or the * has something to take.
      What stands behind the * is not looked at. */
  predicate Matches(pattern: seq<bytes>, path: seq<bytes>) {
    var k := FirstStar(pattern);
    && (if k < |pattern| then k < |path| else |path| == |pattern|)
    && forall i :: 0 <= i < k ==> SegmentFits(pattern[i], path[i])
  }

  /** The bindings of the first n segments. */
  function Bindings(params: Params, pattern: seq<bytes>, path: seq<bytes>, n: nat): Params
    requires n <= |pattern| && n <= |path|
  {
    if n == 0 then params
    else
      var front := Bindings(params, pattern, path, n - 1);
      if IsParam(pattern[n - 1]) then front[pattern[n - 1][1..] := path[n - 1]] else front
  }

  function Bound(params: Params, pattern: seq<bytes>, path: seq<bytes>): Params
    requires Matches(pattern, path)
  {
    var k := FirstStar(pattern);
    var front := Bindings(params, pattern, path, k);
    if k < |pattern| then front[STAR := Join<byte>(path[k..], '/')] else front
  }

  // ----- what matching means, by the paths that match -----

  /** A segment of a pattern together with what stands in its place in a path. */
  datatype Part = Fixed(text: bytes) | Named(name: bytes, value: bytes)

  /** A fixed text is neither * nor a parameter. */
  predicate PartsFit(parts: seq<Part>) {
    forall i :: 0 <= i < |parts| && parts[i].Fixed? ==> parts[i].text != ['*'] && !(parts[i].text != [] && parts[i].text[0] == ':')
  }

  /** The parts as a pattern, followed by a * and anything, or by nothing. */
  function PatternOf(parts: seq<Part>, star: bool, behind: seq<bytes>): (r: seq<bytes>)
    ensures |r| == |parts| + if star then 1 + |behind| else 0
  {
    seq(|parts|, i requires 0 <= i < |parts| => if parts[i].Fixed? then parts[i].text else [':'] + parts[i].name)
    + if star then [['*']] + behind else []
  }

  /** And as a path, followed by what the * takes. */
  function PathOf(parts: seq<Part>, taken: seq<bytes>): (r: seq<bytes>)
    ensures |r| == |parts| + |taken|
  {
    seq(|parts|, i requires 0 <= i < |parts| => if parts[i].Fixed? then parts[i].text else parts[i].value) + taken
  }

  /** The pattern filled with values, and one or more segments in the place of a *, give the path. */
  ghost predicate Fills(pattern: seq<bytes>, path: seq<bytes>, parts: seq<Part>, star: bool, behind: seq<bytes>, taken: seq<bytes>) {
    && PartsFit(parts) && (star <==> taken != [])
    && pattern == PatternOf(parts, star, behind) && path == PathOf(parts, taken)
  }

  lemma StarAt(pattern: seq<bytes>, k: nat)
    requires k <= |pattern| && (forall i :: 0 <= i < k ==> pattern[i] != STAR) && (k < |pattern| ==> pattern[k] == STAR)
    ensures FirstStar(pattern) == k
  {
  }

  lemma FilledMatches(pattern: seq<bytes>, path: seq<bytes>, parts: seq<Part>, star: bool, behind: seq<bytes>, taken: seq<bytes>)
    requires Fills(pattern, path, parts, star, behind, taken)
    ensures FirstStar(pattern) == |parts| && Matches(pattern, path)
  {
    forall i | 0 <= i < |parts| ensures pattern[i] != STAR && SegmentFits(pattern[i], path[i]) {
      assert parts[i].Fixed? ==> pattern[i] == parts[i].text == path[i];
      assert parts[i].Named? ==> pattern[i][0] == ':';
    }
    StarAt(pattern, |parts|);
  }

  function PartAt(seg: bytes, value: bytes): Part {
    if IsParam(seg) then Named(seg[1..], value) else Fixed(seg)
  }

  lemma PartStands(seg: bytes, value: bytes)
    requires SegmentFits(seg, value)
    ensures var p := PartAt(seg, value);
            if p.Fixed? then p.text == seg == value else [':'] + p.name == seg && p.value == value
  {
    assert IsParam(seg) ==> [':'] + seg[1..] == seg;
  }

  lemma MatchedIsFilled(pattern: seq<bytes>, path: seq<bytes>) returns (parts: seq<Part>, star: bool, behind: seq<bytes>, taken: seq<bytes>)
    requires Matches(pattern, path)
    ensures Fills(pattern, path, parts, star, behind, taken)
  {
    var k := FirstStar(pattern);
    parts := seq(k, i requires 0 <= i < k => PartAt(pattern[i], path[i]));
    star := k < |pattern|;
    behind, taken := if star then pattern[k + 1..] else [], path[k..];
    forall i | 0 <= i < k
      ensures var p := parts[i];
              p == PartAt(pattern[i], path[i])
              && (if p.Fixed? then p.text == pattern[i] == path[i] else [':'] + p.name == pattern[i] && p.value == path[i])
    {
      PartStands(pattern[i], path[i]);
    }
    Rebuilt(pattern, path, k, parts);
    assert star ==> pattern == pattern[..k] + ([['*']] + behind);
    assert pattern[..k] + [] == pattern[..k];
    assert path == path[..k] + taken;
  }

  lemma Rebuilt(pattern: seq<bytes>, path: seq<bytes>, k: nat, parts: seq<Part>)
    requires k == |parts| <= |pattern| && k <= |path|
    requires forall i :: 0 <= i < k ==>
               if parts[i].Fixed? then parts[i].text == pattern[i] == path[i]
               else [':'] + parts[i].name == pattern[i] && parts[i].value == path[i]
    ensures PatternOf(parts, false, []) == pattern[..k] && PathOf(parts, []) == path[..k]
  {
  }

  /** A match is nothing but a filling. */
  ghost predicate Filling(pattern: seq<bytes>, path: seq<bytes>) {
    exists parts, star, behind, taken :: Fills(pattern, path, parts, star, behind, taken)
  }

  lemma MatchesIff(pattern: seq<bytes>, path: seq<bytes>)
    ensures Matches(pattern, path) <==> Filling(pattern, path)
  {
    if Matches(pattern, path) {
      var parts, star, behind, taken := MatchedIsFilled(pattern, path);
    }
    if Filling(pattern, path) {
      var parts, star, behind, taken :| Fills(pattern, path, parts, star, behind, taken);
      FilledMatches(pattern, path, parts, star, behind, taken);
    }
  }

  /** Names are distinct, and none is * where the pattern has a *. */
  predicate NamesDiffer(parts: seq<Part>, star: bool) {
    && (forall i, j :: 0 <= i < j < |parts| && parts[i].Named? && parts[j].Named? ==> parts[i].name != parts[j].name)
    && (star ==> forall i :: 0 <= i < |parts| && parts[i].Named? ==> parts[i].name != ['*'])
  }

  /** The parameters hold every value under its name, what the * took joined by slashes, and nothing else new. */
  ghost predicate Binds(params0: Params, params: Params, parts: seq<Part>, taken: seq<bytes>) {
    && (forall i :: 0 <= i < |parts| && parts[i].Named? ==> parts[i].name in params && params[parts[i].name] == parts[i].value)
    && (taken != [] ==> ['*'] in params && params[['*']] == Join<byte>(taken, '/'))
    && (forall key :: key in params ==>
          (key in params0 && params0[key] == params[key]) || (taken != [] && key == ['*'])
          || exists i :: 0 <= i < |parts| && parts[i] == Named(key, params[key]))
  }

  lemma {:induction false} BindingsBind(params0: Params, pattern: seq<bytes>, path: seq<bytes>, parts: seq<Part>, n: nat)
    requires n <= |parts| && |parts| <= |pattern| && |parts| <= |path|
    requires forall i :: 0 <= i < |parts| ==>
               if parts[i].Named? then pattern[i] == [':'] + parts[i].name && path[i] == parts[i].value else !IsParam(pattern[i])
    requires NamesDiffer(parts, false)
    ensures Binds(params0, Bindings(params0, pattern, path, n), parts[..n], [])
  {
    if n > 0 {
      BindingsBind(params0, pattern, path, parts, n - 1);
      var front, params := Bindings(params0, pattern, path, n - 1), Bindings(params0, pattern, path, n);
      if parts[n - 1].Named? {
        assert pattern[n - 1][1..] == parts[n - 1].name;
      }
      forall key | key in params
        ensures (key in params0 && params0[key] == params[key]) || exists i :: 0 <= i < n && parts[..n][i] == Named(key, params[key])
      {
        if key in front && front[key] == params[key] {
          if !(key in params0 && params0[key] == params[key]) {
            var i :| 0 <= i < n - 1 && parts[..n - 1][i] == Named(key, front[key]);
            assert parts[..n][i] == Named(key, params[key]);
          }
        } else {
          assert parts[..n][n - 1] == Named(key, params[key]);
        }
      }
      forall i | 0 <= i < n && parts[i].Named? ensures parts[i].name in params && params[parts[i].name] == parts[i].value {
        if i < n - 1 {
          assert parts[..n - 1][i] == parts[i];
        }
      }
    }
  }

  lemma FilledBinds(params0: Params, pattern: seq<bytes>, path: seq<bytes>, parts: seq<Part>, star: bool, behind: seq<bytes>, taken: seq<bytes>)
    requires Fills(pattern, path, parts, star, behind, taken) && NamesDiffer(parts, star) && Matches(pattern, path)
    ensures Binds(params0, Bound(params0, pattern, path), parts, taken)
  {
    FilledMatches(pattern, path, parts, star, behind, taken);
    var k := |parts|;
    forall i | 0 <= i < k
      ensures if parts[i].Named? then pattern[i] == [':'] + parts[i].name && path[i] == parts[i].value else !IsParam(pattern[i])
    {
    }
    BindingsBind(params0, pattern, path, parts, k);
    assert parts[..k] == parts;
    assert path[k..] == taken;
  }

  /** A match behind a * is not lost when the path goes on. */
  lemma StarTakesMore(params: Params, pattern: seq<bytes>, path: seq<bytes>, more: seq<bytes>)
    requires Matches(pattern, path) && STAR in pattern
    ensures Matches(pattern, path + more)
    ensures STAR in Bound(params, pattern, path + more)
    ensures Bound(params, pattern, path + more)[STAR] == Join<byte>((path + more)[FirstStar(pattern)..], '/')
  {
    var k := FirstStar(pattern);
    assert k < |pattern|;
    assert forall i :: 0 <= i < k ==> (path + more)[i] == path[i];
  }

  // ----- the matcher -----

  /** The remaining segments joined by slashes again. */
  method Rest(parts: seq<bytes>, from: nat) returns (rest: bytes)
    requires from <= |parts|
    ensures rest == Join<byte>(parts[from..], '/')
  {
    rest := [];
    for i := from to |parts|
      invariant rest == Join<byte>(parts[from..i], '/')
    {
      JoinLast(parts[from..i], parts[i]);
      assert parts[from..i] + [parts[i]] == parts[from..i + 1];
      if i > from {
        rest := rest + ['/'];
      }
      rest := rest + parts[i];
    }
    assert parts[from..|parts|] == parts[from..];
  }

  lemma {:induction false} JoinLast(ps: seq<bytes>, p: bytes)
    ensures Join<byte>(ps + [p], '/') == (if ps == [] then [] else Join<byte>(ps, '/') + ['/']) + p
  {
    if ps == [] {
      assert ps + [p] == [p];
    } else {
      assert (ps + [p])[1..] == ps[1..] + [p];
      JoinLast(ps[1..], p);
      if |ps| > 1 {
        assert ps[0] + ['/'] + (Join<byte>(ps[1..], '/') + ['/'] + p) == ps[0] + ['/'] + Join<byte>(ps[1..], '/') + ['/'] + p;
      }
    }
  }

  /** `params` comes back extended, also where the match fails half-way. */
  method Match(pattern: bytes, path: bytes, params0: Params) returns (ok: bool, params: Params)
    ensures ok <==> Matches(Segments(pattern), Segments(path))
    ensures ok ==> params == Bound(params0, Segments(pattern), Segments(path))
    ensures ok <==> Filling(Segments(pattern), Segments(path))
    ensures forall parts, star, behind, taken ::
              Fills(Segments(pattern), Segments(path), parts, star, behind, taken) && NamesDiffer(parts, star) ==>
                ok && Binds(params0, params, parts, taken)
  {
    MatchesIff(Segments(pattern), Segments(path));
    forall parts, star, behind, taken | Fills(Segments(pattern), Segments(path), parts, star, behind, taken) && NamesDiffer(parts, star)
      ensures Matches(Segments(pattern), Segments(path)) && Binds(params0, Bound(params0, Segments(pattern), Segments(path)), parts, taken)
    {
      FilledMatches(Segments(pattern), Segments(path), parts, star, behind, taken);
      FilledBinds(params0, Segments(pattern), Segments(path), parts, star, behind, taken);
    }
    var pParts := Split(pattern);
    var rParts := Split(path);
    ok, params := MatchParts(pParts, rParts, params0);
  }

  method MatchParts(pParts: seq<bytes>, rParts: seq<bytes>, params0: Params) returns (ok: bool, params: Params)
    ensures ok <==> Matches(pParts, rParts)
    ensures ok ==> params == Bound(params0, pParts, rParts)
  {
    params := params0;
    var pi, ri := 0, 0;
    while pi < |pParts| && ri < |rParts|
      invariant pi == ri <= FirstStar(pParts) && ri <= |rParts|
      invariant params == Bindings(params0, pParts, rParts, pi)
      invariant forall i :: 0 <= i < pi ==> SegmentFits(pParts[i], rParts[i])
    {
      var seg := pParts[pi];
      if seg == STAR {
        var rest := Rest(rParts, ri);
        params := params[STAR := rest];
        return true, params;
      } else if seg != [] && seg[0] == ':' {
        params := params[seg[1..] := rParts[ri]];
      } else if seg != rParts[ri] {
        assert !SegmentFits(pParts[pi], rParts[pi]);
        return false, params;
      }
      pi := pi + 1;
      ri := ri + 1;
    }
    return pi == |pParts| && ri == |rParts|, params;
  }

  /** What stands behind the first * of a pattern plays no part. */
  lemma {:induction false} FirstStarOf(pattern: seq<bytes>, more: seq<bytes>)
    requires FirstStar(pattern) < |pattern|
    ensures FirstStar(pattern + more) == FirstStar(pattern)
  {
    if pattern[0] != STAR {
      assert (pattern + more)[1..] == pattern[1..] + more;
      FirstStarOf(pattern[1..], more);
    }
  }

  lemma {:induction false} BindingsOfPrefix(params: Params, pattern: seq<bytes>, more: seq<bytes>, path: seq<bytes>, n: nat)
    requires n <= |pattern| && n <= |path|
    ensures Bindings(params, pattern + more, path, n) == Bindings(params, pattern, path, n)
  {
    if n > 0 {
      BindingsOfPrefix(params, pattern, more, path, n - 1);
    }
  }

  lemma BehindStarIsIgnored(params: Params, pattern: seq<bytes>, more: seq<bytes>, path: seq<bytes>)
    requires FirstStar(pattern) < |pattern|
    ensures Matches(pattern + more, path) == Matches(pattern, path)
    ensures Matches(pattern, path) ==> Bound(params, pattern + more, path) == Bound(params, pattern, path)
  {
    var k := FirstStar(pattern);
    FirstStarOf(pattern, more);
    assert forall i :: 0 <= i < k ==> (pattern + more)[i] == pattern[i];
    if Matches(pattern, path) {
      BindingsOfPrefix(params, pattern, more, path, k);
    }
  }

  // ----- substituting the parameters gives the path back -----

  function Filled(pattern: seq<bytes>, params: Params, n: nat): (r: seq<bytes>)
    requires n <= |pattern|
    ensures |r| == n
  {
    if n == 0 then []
    else
      var seg := pattern[n - 1];
      Filled(pattern, params, n - 1)
      + [if IsParam(seg) && seg[1..] in params then params[seg[1..]] else seg]
  }

  /** The pattern with every parameter replaced by its value, the * by the segments it took. */
  function Substituted(pattern: seq<bytes>, params: Params): seq<bytes> {
    var k := FirstStar(pattern);
    Filled(pattern, params, k) + (if k < |pattern| && STAR in params then Segments(params[STAR]) else [])
  }

  /** Segments bound to the same name are equal, and so is the rest of the path to what a parameter called *
      in front of a * segment took. */
  predicate Agree(pattern: seq<bytes>, path: seq<bytes>)
    requires Matches(pattern, path)
  {
    var k := FirstStar(pattern);
    && (forall i, j :: 0 <= i < j < k && IsParam(pattern[i]) && pattern[i] == pattern[j] ==> path[i] == path[j])
    && (k < |pattern| ==> forall i :: 0 <= i < k && IsParam(pattern[i]) && pattern[i][1..] == STAR ==> path[i] == Join<byte>(path[k..], '/'))
  }

  lemma ParamName(a: bytes, b: bytes)
    requires IsParam(a) && IsParam(b) && a[1..] == b[1..]
    ensures a == b
  {
    assert a == [':'] + a[1..] && b == [':'] + b[1..];
  }

  lemma {:induction false} FilledAt(pattern: seq<bytes>, params: Params, n: nat, i: nat)
    requires i < n <= |pattern|
    ensures Filled(pattern, params, n)[i] == if IsParam(pattern[i]) && pattern[i][1..] in params then params[pattern[i][1..]] else pattern[i]
  {
    if i < n - 1 {
      FilledAt(pattern, params, n - 1, i);
    }
  }

  /** A name is bound to the last segment that carries it. */
  lemma {:induction false} BindingIsLast(params: Params, pattern: seq<bytes>, path: seq<bytes>, n: nat, i: nat) returns (j: nat)
    requires i < n <= |pattern| && n <= |path| && IsParam(pattern[i])
    ensures i <= j < n && pattern[j] == pattern[i]
    ensures pattern[i][1..] in Bindings(params, pattern, path, n)
    ensures Bindings(params, pattern, path, n)[pattern[i][1..]] == path[j]
  {
    if IsParam(pattern[n - 1]) && pattern[n - 1][1..] == pattern[i][1..] {
      ParamName(pattern[i], pattern[n - 1]);
      j := n - 1;
    } else {
      j := BindingIsLast(params, pattern, path, n - 1, i);
    }
  }

  /** The value a parameter in front of the first * ends up with: that of the last segment of its name, or
      what the * took if it bears that name. */
  lemma ValueOf(params0: Params, pattern: seq<bytes>, path: seq<bytes>, i: nat) returns (j: nat)
    requires Matches(pattern, path) && i < FirstStar(pattern) && IsParam(pattern[i])
    ensures i <= j < FirstStar(pattern) && pattern[j] == pattern[i]
    ensures var k, name, params := FirstStar(pattern), pattern[i][1..], Bound(params0, pattern, path);
            name in params && params[name] == if k < |pattern| && name == STAR then Join<byte>(path[k..], '/') else path[j]
  {
    j := BindingIsLast(params0, pattern, path, FirstStar(pattern), i);
  }

  /** Segment i of the path comes back. */
  predicate Restored(pattern: seq<bytes>, path: seq<bytes>, params: Params, i: nat)
    requires i < |pattern| && i < |path|
  {
    IsParam(pattern[i]) ==> pattern[i][1..] in params && params[pattern[i][1..]] == path[i]
  }

  lemma FilledIsPathIff(params0: Params, pattern: seq<bytes>, path: seq<bytes>)
    requires Matches(pattern, path)
    ensures var k := FirstStar(pattern);
            Filled(pattern, Bound(params0, pattern, path), k) == path[..k]
            <==> forall i :: 0 <= i < k ==> Restored(pattern, path, Bound(params0, pattern, path), i)
  {
    var k, params := FirstStar(pattern), Bound(params0, pattern, path);
    var f := Filled(pattern, params, k);
    forall i | 0 <= i < k ensures f[i] == path[..k][i] <==> Restored(pattern, path, params, i) {
      FilledAt(pattern, params, k, i);
      assert SegmentFits(pattern[i], path[i]);
      if IsParam(pattern[i]) {
        var j := ValueOf(params0, pattern, path, i);
      }
    }
  }

  lemma RestoredIfAgree(params0: Params, pattern: seq<bytes>, path: seq<bytes>, i: nat)
    requires Matches(pattern, path) && Agree(pattern, path) && i < FirstStar(pattern)
    ensures Restored(pattern, path, Bound(params0, pattern, path), i)
  {
    if IsParam(pattern[i]) {
      var j := ValueOf(params0, pattern, path, i);
    }
  }

  lemma AgreeIfRestored(params0: Params, pattern: seq<bytes>, path: seq<bytes>)
    requires Matches(pattern, path)
    requires forall i :: 0 <= i < FirstStar(pattern) ==> Restored(pattern, path, Bound(params0, pattern, path), i)
    ensures Agree(pattern, path)
  {
    var k, params := FirstStar(pattern), Bound(params0, pattern, path);
    forall i, j | 0 <= i < j < k && IsParam(pattern[i]) && pattern[i] == pattern[j] ensures path[i] == path[j] {
      assert Restored(pattern, path, params, i) && Restored(pattern, path, params, j);
    }
    forall i | 0 <= i < k < |pattern| && IsParam(pattern[i]) && pattern[i][1..] == STAR ensures path[i] == Join<byte>(path[k..], '/') {
      assert Restored(pattern, path, params, i);
    }
  }

  lemma RestIsRestored(params0: Params, pattern: seq<bytes>, path: seq<bytes>)
    requires Matches(pattern, path) && AreSegments(path)
    ensures Substituted(pattern, Bound(params0, pattern, path))
         == Filled(pattern, Bound(params0, pattern, path), FirstStar(pattern)) + path[FirstStar(pattern)..]
  {
    var k := FirstStar(pattern);
    if k < |pattern| {
      SegmentsOfJoin(path[k..]);
    }
  }

  /** The parameters of a match determine the path, that is, filled into the pattern they give its segments
      back, if and only if segments of the same name agree. */
  lemma PartsRestoreIff(params0: Params, pattern: seq<bytes>, path: seq<bytes>)
    requires Matches(pattern, path) && AreSegments(path)
    ensures Substituted(pattern, Bound(params0, pattern, path)) == path <==> Agree(pattern, path)
  {
    var k, params := FirstStar(pattern), Bound(params0, pattern, path);
    RestIsRestored(params0, pattern, path);
    assert path == path[..k] + path[k..];
    assert Substituted(pattern, params) == path <==> Filled(pattern, params, k) == path[..k];
    FilledIsPathIff(params0, pattern, path);
    if Agree(pattern, path) {
      forall i | 0 <= i < k ensures Restored(pattern, path, params, i) {
        RestoredIfAgree(params0, pattern, path, i);
      }
    } else if forall i :: 0 <= i < k ==> Restored(pattern, path, params, i) {
      AgreeIfRestored(params0, pattern, path);
    }
  }

  lemma SubstitutionRestoresIff(params0: Params, pattern: bytes, path: bytes)
    requires Matches(Segments(pattern), Segments(path))
    ensures Substituted(Segments(pattern), Bound(params0, Segments(pattern), Segments(path))) == Segments(path)
            <==> Agree(Segments(pattern), Segments(path))
  {
    SegmentsAreSegments(path);
    PartsRestoreIff(params0, Segments(pattern), Segments(path));
  }

  // ----- the patterns that restore every path -----

  /** Parameter names before the first * are distinct, and if there is a * none of them is *. */
  predicate NamesDistinct(pattern: seq<bytes>) {
    var k := FirstStar(pattern);
    && (forall i, j :: 0 <= i < j < k && IsParam(pattern[i]) ==> pattern[i] != pattern[j])
    && (k < |pattern| ==> forall i :: 0 <= i < k && IsParam(pattern[i]) ==> pattern[i][1..] != STAR)
  }

  /** A path for the pattern that differs at segment i from every other parameter and from the rest. */
  function OddOneOut(pattern: seq<bytes>, i: nat): (path: seq<bytes>)
    requires i < FirstStar(pattern) && IsParam(pattern[i]) && AreSegments(pattern)
    ensures AreSegments(path) && Matches(pattern, path)
  {
    var k := FirstStar(pattern);
    var path := seq(k, j requires 0 <= j < k => if j == i then ['a'] else if IsParam(pattern[j]) then ['b'] else pattern[j])
                + (if k < |pattern| then [['b']] else []);
    assert forall j :: 0 <= j < k ==> IsSegment(pattern[j]);
    path
  }

  lemma OddOneRepeats(pattern: seq<bytes>, i: nat, j: nat)
    requires AreSegments(pattern) && i < j < FirstStar(pattern) && IsParam(pattern[i]) && pattern[j] == pattern[i]
    ensures !Agree(pattern, OddOneOut(pattern, i))
  {
    var path := OddOneOut(pattern, i);
    assert path[i] == ['a'] && path[j] == ['b'];
    assert path[i][0] != path[j][0];
  }

  lemma OddOneIsStar(pattern: seq<bytes>, i: nat)
    requires AreSegments(pattern) && i < FirstStar(pattern) < |pattern| && IsParam(pattern[i]) && pattern[i][1..] == STAR
    ensures !Agree(pattern, OddOneOut(pattern, i))
  {
    var k, path := FirstStar(pattern), OddOneOut(pattern, i);
    assert path[i] == ['a'] && path[k..] == [['b']];
    assert path[i][0] != Join<byte>(path[k..], '/')[0];
  }

  ghost predicate RestoresAll(params0: Params, pattern: bytes) {
    forall path: bytes :: Matches(Segments(pattern), Segments(path)) ==>
      Substituted(Segments(pattern), Bound(params0, Segments(pattern), Segments(path))) == Segments(path)
  }

  lemma SubstitutionRestores(params0: Params, pattern: bytes, path: bytes)
    requires Matches(Segments(pattern), Segments(path)) && NamesDistinct(Segments(pattern))
    ensures Substituted(Segments(pattern), Bound(params0, Segments(pattern), Segments(path))) == Segments(path)
  {
    SubstitutionRestoresIff(params0, pattern, path);
  }

  /** Every path that a pattern matches is determined by its parameters if and only if the names are distinct. */
  lemma RestoresAllIff(params0: Params, pattern: bytes)
    ensures RestoresAll(params0, pattern) <==> NamesDistinct(Segments(pattern))
  {
    if NamesDistinct(Segments(pattern)) {
      forall path: bytes | Matches(Segments(pattern), Segments(path))
        ensures Substituted(Segments(pattern), Bound(params0, Segments(pattern), Segments(path))) == Segments(path)
      {
        SubstitutionRestores(params0, pattern, path);
      }
    } else {
      OneIsNotRestored(params0, pattern);
    }
  }

  lemma OneIsNotRestored(params0: Params, pattern: bytes)
    requires !NamesDistinct(Segments(pattern))
    ensures !RestoresAll(params0, pattern)
  {
    var pp := Segments(pattern);
    var k := FirstStar(pp);
    SegmentsAreSegments(pattern);
    var i :| 0 <= i < k && IsParam(pp[i]) && ((exists j :: i < j < k && pp[j] == pp[i]) || (k < |pp| && pp[i][1..] == STAR));
    var rr := OddOneOut(pp, i);
    if k < |pp| && pp[i][1..] == STAR {
      OddOneIsStar(pp, i);
    } else {
      var j :| i < j < k && pp[j] == pp[i];
      OddOneRepeats(pp, i, j);
    }
    SegmentsOfJoin(rr);
    SubstitutionRestoresIff(params0, pattern, Join<byte>(rr, '/'));
  }

  lemma LeadingSlash(s: bytes)
    ensures Segments(['/'] + s) == Segments(s)
  {
    var t := ['/'] + s;
    OccursChar<byte>(t, '/', 0);
    FindIs<byte>(t, ['/'], 0);
    FirstSegment(t);
    assert t[1..] == s;
  }

  lemma TwoSegments(a: bytes, b: bytes)
    requires IsSegment(a) && IsSegment(b)
    ensures Segments(['/'] + (a + ['/'] + b)) == [a, b]
  {
    var ps := [a, b];
    assert ps[1..] == [b] && Join<byte>(ps, '/') == a + ['/'] + b;
    LeadingSlash(Join<byte>(ps, '/'));
    SegmentsOfJoin(ps);
  }

  lemma TwiceTheSameName(pp: seq<bytes>, rr: seq<bytes>)
    requires |pp| == |rr| == 2 && IsParam(pp[0]) && pp[0] == pp[1] && AreSegments(rr) && rr[0] != rr[1]
    ensures Matches(pp, rr) && Substituted(pp, Bound(map[], pp, rr)) != rr
  {
    assert pp[0] != STAR && FirstStar(pp) == 2;
    assert SegmentFits(pp[0], rr[0]) && SegmentFits(pp[1], rr[1]);
    PartsRestoreIff(map[], pp, rr);
  }

  /** Such an input: both segments are bound to the same name, and the last one wins. */
  lemma RepeatedNameForgets(pattern: bytes, path: bytes)
    requires pattern == "/:a/:a" && path == "/1/2"
    ensures Matches(Segments(pattern), Segments(path))
    ensures Substituted(Segments(pattern), Bound(map[], Segments(pattern), Segments(path))) != Segments(path)
  {
    var name, one, two: bytes := [':', 'a'], ['1'], ['2'];
    TwoSegments(name, name);
    TwoSegments(one, two);
    assert pattern == ['/'] + (name + ['/'] + name) && path == ['/'] + (one + ['/'] + two);
    assert one[0] != two[0];
    TwiceTheSameName([name, name], [one, two]);
  }
}
