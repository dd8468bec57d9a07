/** Byte strings and the few std::string / std::getline operations the program relies on. */
module Bytes {

  type byte = c: char | c as int < 256 witness 'a'
  type bytes = seq<byte>

  datatype Option<+T> = None | Some(value: T)

  // ----- std::string::find -----

  predicate OccursAt<T(==)>(s: seq<T>, d: seq<T>, p: nat) {
    p + |d| <= |s| && s[p..p + |d|] == d
  }

  /** The first position of `d` in `s`, or None (npos). */
  function Find<T(==)>(s: seq<T>, d: seq<T>): (r: Option<nat>)
    ensures r.Some? ==> OccursAt(s, d, r.value) && forall p: nat :: p < r.value ==> !OccursAt(s, d, p)
    ensures r.None? ==> forall p: nat :: !OccursAt(s, d, p)
  {
    FindFrom(s, d, 0)
  }

  function FindFrom<T(==)>(s: seq<T>, d: seq<T>, i: nat): (r: Option<nat>)
    requires i <= |s|
    ensures r.Some? ==> i <= r.value && OccursAt(s, d, r.value) && forall p: nat :: i <= p < r.value ==> !OccursAt(s, d, p)
    ensures r.None? ==> forall p: nat :: i <= p ==> !OccursAt(s, d, p)
    decreases |s| - i
  {
    if OccursAt(s, d, i) then Some(i)
    else if i == |s| then None
    else FindFrom(s, d, i + 1)
  }

  /** Occurrences inside a prefix are those of the whole. */
  lemma OccursInPrefix<T>(s: seq<T>, t: seq<T>, d: seq<T>, p: nat)
    requires p + |d| <= |s|
    ensures OccursAt(s + t, d, p) == OccursAt(s, d, p)
  {
    assert (s + t)[p..p + |d|] == s[p..p + |d|];
  }

  /** What a search finds in a prefix it finds at the same place in the whole. */
  lemma FindInPrefix<T>(s: seq<T>, t: seq<T>, d: seq<T>)
    requires Find(s, d).Some?
    ensures Find(s + t, d) == Find(s, d)
  {
    var p := Find(s, d).value;
    forall q: nat | q <= p ensures OccursAt(s + t, d, q) == OccursAt(s, d, q) {
      OccursInPrefix(s, t, d, q);
    }
    FindIs(s + t, d, p);
  }

  /** A position is the answer of `Find` as soon as `d` is there and nowhere before. */
  lemma FindIs<T>(s: seq<T>, d: seq<T>, p: nat)
    requires OccursAt(s, d, p)
    requires forall q: nat :: q < p ==> !OccursAt(s, d, q)
    ensures Find(s, d) == Some(p)
  {
    var r := Find(s, d);
    assert r.Some?;
    assert !(r.value < p);
    assert !(p < r.value);
  }

  lemma OccursChar<T>(s: seq<T>, c: T, p: nat)
    ensures OccursAt(s, [c], p) <==> p < |s| && s[p] == c
  {
    if p < |s| {
      assert s[p..p + 1] == [s[p]];
    }
  }

  /** Looking for one character: the answer is the length of what holds none of it. */
  lemma FindChar<T>(s: seq<T>, t: seq<T>, c: T)
    requires c !in s
    ensures Find(s + [c] + t, [c]) == Some(|s|)
  {
    var w := s + [c] + t;
    forall q: nat ensures OccursAt(w, [c], q) <==> q < |w| && w[q] == c {
      OccursChar(w, c, q);
    }
    assert w[|s|] == c;
    FindIs(w, [c], |s|);
  }

  lemma FindCharNone<T>(s: seq<T>, c: T)
    ensures Find(s, [c]) == None <==> c !in s
  {
    forall q: nat ensures OccursAt(s, [c], q) <==> q < |s| && s[q] == c {
      OccursChar(s, c, q);
    }
    if c in s {
      var i :| 0 <= i < |s| && s[i] == c;
      assert OccursAt(s, [c], i);
    }
  }

  // ----- std::getline in a loop -----

  /** The pieces that `while (std::getline(ss, piece, c))` yields: a final separator adds no empty piece. */
  function Pieces<T(==)>(s: seq<T>, c: T): (ps: seq<seq<T>>)
    decreases |s|
  {
    if s == [] then []
    else match Find(s, [c])
      case None => [s]
      case Some(p) => [s[..p]] + Pieces(s[p + 1..], c)
  }

  function Join<T>(ps: seq<seq<T>>, c: T): seq<T> {
    if ps == [] then []
    else if |ps| == 1 then ps[0]
    else ps[0] + [c] + Join(ps[1..], c)
  }

  /** Splitting undoes joining when no piece holds the separator and the last piece is not empty. */
  lemma {:induction false} PiecesOfJoin<T>(ps: seq<seq<T>>, c: T)
    requires forall p :: p in ps ==> c !in p
    requires ps != [] ==> ps[|ps| - 1] != []
    ensures Pieces(Join(ps, c), c) == ps
  {
    if ps == [] {
    } else if |ps| == 1 {
      FindCharNone(ps[0], c);
    } else {
      var rest := Join(ps[1..], c);
      var s := ps[0] + [c] + rest;
      FindChar(ps[0], rest, c);
      assert s[..|ps[0]|] == ps[0];
      assert s[|ps[0]| + 1..] == rest;
      PiecesOfJoin(ps[1..], c);
    }
  }

  /** getline takes what stands before the next separator; this says it of every text. */
  lemma PiecesAre<T>(p: seq<T>, rest: seq<T>, c: T)
    requires c !in p
    ensures Pieces(p, c) == if p == [] then [] else [p]
    ensures Pieces(p + [c] + rest, c) == [p] + Pieces(rest, c)
  {
    var s := p + [c] + rest;
    FindCharNone(p, c);
    FindChar(p, rest, c);
    assert s[..|p|] == p && s[|p| + 1..] == rest;
  }

  function Flatten<T>(ps: seq<seq<T>>): seq<T> {
    if ps == [] then [] else ps[0] + Flatten(ps[1..])
  }

  lemma {:induction false} FlattenLast<T>(ps: seq<seq<T>>, p: seq<T>)
    ensures Flatten(ps + [p]) == Flatten(ps) + p
  {
    if ps == [] {
      assert ps + [p] == [p] && [p][1..] == [];
    } else {
      assert (ps + [p])[1..] == ps[1..] + [p];
      FlattenLast(ps[1..], p);
    }
  }
}
