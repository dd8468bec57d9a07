/** Percent decoding (section 2.1 of RFC 3986, with + for a space) and the query string. */
module UrlCodec {
  import opened Bytes

  predicate IsHex(c: byte) {
    '0' <= c <= '9' || 'a' <= c <= 'f' || 'A' <= c <= 'F'
  }

  function HexValue(c: byte): (n: nat)
    requires IsHex(c)
    ensures n < 16
  {
    if '0' <= c <= '9' then c as int - '0' as int
    else if 'a' <= c <= 'f' then c as int - 'a' as int + 10
    else c as int - 'A' as int + 10
  }

  predicate EscapeAt(s: bytes, i: nat) {
    i + 2 < |s| && s[i] == '%' && IsHex(s[i + 1]) && IsHex(s[i + 2])
  }

  function Escaped(hi: byte, lo: byte): byte
    requires IsHex(hi) && IsHex(lo)
  {
    (16 * HexValue(hi) + HexValue(lo)) as char
  }

  /** What the rest of the string from position i on decodes to. */
  function DecodeFrom(s: bytes, i: nat): bytes
    requires i <= |s|
    decreases |s| - i
  {
    if i == |s| then []
    else if EscapeAt(s, i) then [Escaped(s[i + 1], s[i + 2])] + DecodeFrom(s, i + 3)
    else [if s[i] == '+' then ' ' else s[i]] + DecodeFrom(s, i + 1)
  }

  function Decode(s: bytes): bytes {
    DecodeFrom(s, 0)
  }

  method UrlDecode(s: bytes) returns (result: bytes)
    ensures result == Decode(s)
  {
    result := [];
    var i := 0;
    while i < |s|
      invariant i <= |s| && result + DecodeFrom(s, i) == Decode(s)
      decreases |s| - i
    {
      ghost var tail := DecodeFrom(s, i);
      if EscapeAt(s, i) {
        assert result + tail == result + [Escaped(s[i + 1], s[i + 2])] + DecodeFrom(s, i + 3);
        result := result + [Escaped(s[i + 1], s[i + 2])];
        i := i + 2;
      } else if s[i] == '+' {
        assert result + tail == result + [' '] + DecodeFrom(s, i + 1);
        result := result + [' '];
      } else {
        assert result + tail == result + [s[i]] + DecodeFrom(s, i + 1);
        result := result + [s[i]];
      }
      i := i + 1;
    }
  }

  // ----- every encoder -----

  /** How an encoder may write one byte. */
  datatype Writing = Plain | Percent(hi: byte, lo: byte) | Plus

  /** It must not leave a byte of `reserved`, a % or a + as it is; everything else is its choice. */
  predicate MayWrite(c: byte, w: Writing, reserved: set<byte>) {
    match w
    case Plain => c != '%' && c != '+' && c !in reserved
    case Percent(hi, lo) => IsHex(hi) && IsHex(lo) && Escaped(hi, lo) == c && hi !in reserved && lo !in reserved
    case Plus => c == ' '
  }

  datatype Choice = Choice(c: byte, w: Writing)

  predicate MayEncode(text: seq<Choice>, reserved: set<byte>) {
    && '%' !in reserved && '+' !in reserved
    && forall i :: 0 <= i < |text| ==> MayWrite(text[i].c, text[i].w, reserved)
  }

  function Written(c: Choice): bytes {
    match c.w
    case Plain => [c.c]
    case Percent(hi, lo) => ['%', hi, lo]
    case Plus => ['+']
  }

  /** The bytes the encoder produces. */
  function Encoded(text: seq<Choice>): bytes {
    if text == [] then [] else Written(text[0]) + Encoded(text[1..])
  }

  /** The bytes it was given. */
  function Meant(text: seq<Choice>): bytes {
    if text == [] then [] else [text[0].c] + Meant(text[1..])
  }

  lemma {:induction false} EncodedAvoids(text: seq<Choice>, reserved: set<byte>)
    requires MayEncode(text, reserved)
    ensures forall c :: c in reserved ==> c !in Encoded(text)
  {
    if text != [] {
      EncodedAvoids(text[1..], reserved);
    }
  }

  /** Decoding a position past a prefix is decoding the suffix. */
  lemma {:induction false} DecodeSuffix(p: bytes, s: bytes, i: nat)
    requires i <= |s|
    ensures DecodeFrom(p + s, |p| + i) == DecodeFrom(s, i)
    decreases |s| - i
  {
    if i < |s| {
      if EscapeAt(s, i) {
        DecodeSuffix(p, s, i + 3);
      } else {
        assert !EscapeAt(p + s, |p| + i);
        DecodeSuffix(p, s, i + 1);
      }
    }
  }

  /** Decoding undoes every encoder. */
  lemma {:induction false} DecodeOfEncoded(text: seq<Choice>, reserved: set<byte>)
    requires MayEncode(text, reserved)
    ensures Decode(Encoded(text)) == Meant(text)
  {
    if text != [] {
      DecodeOfEncoded(text[1..], reserved);
      var p, s := Written(text[0]), Encoded(text[1..]);
      DecodeSuffix(p, s, 0);
      assert (p + s)[0] == p[0];
      assert DecodeFrom(p + s, 0) == [text[0].c] + DecodeFrom(p + s, |p|);
    }
  }

  function HexDigit(n: nat): (c: byte)
    requires n < 16
    ensures IsHex(c) && HexValue(c) == n
  {
    if n < 10 then (48 + n) as char else (55 + n) as char
  }

  /** The encoder that escapes every byte. */
  function EscapeAll(s: bytes): (text: seq<Choice>)
    ensures |text| == |s|
  {
    if s == [] then []
    else [Choice(s[0], Percent(HexDigit(s[0] as int / 16), HexDigit(s[0] as int % 16)))] + EscapeAll(s[1..])
  }

  /** So any bytes can be encoded around any reserved set without hexadecimal digits. */
  lemma {:induction false} AnythingCanBeEncoded(s: bytes, reserved: set<byte>)
    requires '%' !in reserved && '+' !in reserved && forall c :: c in reserved ==> !IsHex(c)
    ensures MayEncode(EscapeAll(s), reserved) && Meant(EscapeAll(s)) == s
  {
    if s != [] {
      AnythingCanBeEncoded(s[1..], reserved);
      assert 16 * (s[0] as int / 16) + s[0] as int % 16 == s[0] as int;
    }
  }

  // ----- decoding of any text -----

  /** The hexadecimal digits, in either case. */
  lemma HexIs(c: byte)
    ensures IsHex(c) <==> exists n: nat :: n < 16 && SpellsDigit(c, n)
    ensures forall n: nat :: n < 16 && SpellsDigit(c, n) ==> IsHex(c) && HexValue(c) == n
  {
    if IsHex(c) {
      assert SpellsDigit(c, HexValue(c));
    }
  }

  /** 0 to 9, A to F and a to f by their codes. */
  predicate SpellsDigit(c: byte, n: nat) {
    if n < 10 then c as int == 48 + n else c as int == 55 + n || c as int == 87 + n
  }

  /** Two hexadecimal digits follow. */
  predicate TwoDigits(s: bytes, hi: nat, lo: nat) {
    |s| >= 2 && hi < 16 && lo < 16 && SpellsDigit(s[0], hi) && SpellsDigit(s[1], lo)
  }

  /** What every byte becomes, by what follows it: this determines the decoding of every text. A percent sign
      that no two hexadecimal digits follow stands for itself. */
  lemma DecodeAny(c: byte, s: bytes)
    ensures Decode([]) == []
    ensures c != '%' && c != '+' ==> Decode([c] + s) == [c] + Decode(s)
    ensures c == '+' ==> Decode([c] + s) == [' '] + Decode(s)
    ensures c == '%' && (forall hi, lo :: !TwoDigits(s, hi, lo)) ==> Decode([c] + s) == ['%'] + Decode(s)
    ensures forall hi, lo :: c == '%' && TwoDigits(s, hi, lo) ==> Decode([c] + s) == [(16 * hi + lo) as char] + Decode(s[2..])
  {
    var t := [c] + s;
    DecodeSuffix([c], s, 0);
    if |s| >= 2 {
      HexIs(s[0]);
      HexIs(s[1]);
      if EscapeAt(t, 0) {
        assert TwoDigits(s, HexValue(s[0]), HexValue(s[1]));
      }
      assert t == (([c] + s[..2]) + s[2..]);
      DecodeSuffix([c] + s[..2], s[2..], 0);
    }
  }

  // ----- query strings -----

  type Query = map<bytes, bytes>

  function AddPair(q: Query, piece: bytes): Query {
    if piece == [] then q
    else match Find<byte>(piece, ['='])
      case None => q[Decode(piece) := []]
      case Some(eq) => q[Decode(piece[..eq]) := Decode(piece[eq + 1..])]
  }

  function AddPairs(q: Query, pieces: seq<bytes>): Query
    decreases |pieces|
  {
    if pieces == [] then q else AddPairs(AddPair(q, pieces[0]), pieces[1..])
  }

  /** The parameters that a query string adds to what is there. */
  function QueryOf(q: Query, text: bytes): Query {
    AddPairs(q, Pieces<byte>(text, '&'))
  }

  lemma AddOne(q: Query, piece: bytes)
    ensures AddPairs(q, [piece]) == AddPair(q, piece)
  {
    assert [piece][1..] == [];
  }

  /** What any query string means: the pieces between & one after the other, an empty piece for nothing, one
      without = for a key with an empty value, and else the key before the first = and the value behind it. */
  lemma QueryAny(q: Query, piece: bytes, key: bytes, value: bytes, rest: bytes)
    requires '&' !in piece && '&' !in key && '&' !in value && '=' !in key
    ensures QueryOf(q, []) == q
    ensures QueryOf(q, piece + ['&'] + rest) == QueryOf(QueryOf(q, piece), rest)
    ensures piece != [] && '=' !in piece ==> QueryOf(q, piece) == q[Decode(piece) := []]
    ensures QueryOf(q, key + ['='] + value) == q[Decode(key) := Decode(value)]
  {
    PiecesAre<byte>(piece, rest, '&');
    AddOne(q, piece);
    FindCharNone<byte>(piece, '=');
    KeyAndValue(q, key, value);
  }

  lemma KeyAndValue(q: Query, key: bytes, value: bytes)
    requires '&' !in key && '&' !in value && '=' !in key
    ensures QueryOf(q, key + ['='] + value) == q[Decode(key) := Decode(value)]
  {
    var text := key + ['='] + value;
    PiecesAre<byte>(text, [], '&');
    AddOne(q, text);
    FindChar<byte>(key, value, '=');
    assert text[..|key|] == key && text[|key| + 1..] == value;
  }

  /** The query parameters, added to what is there already. */
  method ParseQueryString(text: bytes, q0: Query) returns (q: Query)
    ensures q == QueryOf(q0, text)
  {
    q := q0;
    var rest := text;
    while rest != []
      invariant AddPairs(q, Pieces<byte>(rest, '&')) == AddPairs(q0, Pieces<byte>(text, '&'))
      decreases |rest|
    {
      var p := Find<byte>(rest, ['&']);
      var piece := if p == None then rest else rest[..p.value];
      ghost var pieces := Pieces<byte>(rest, '&');
      rest := if p == None then [] else rest[p.value + 1..];
      assert pieces[0] == piece && pieces[1..] == Pieces<byte>(rest, '&');
      if piece == [] {
        continue;
      }
      var eq := Find<byte>(piece, ['=']);
      if eq == None {
        var key := UrlDecode(piece);
        q := q[key := []];
      } else {
        var key := UrlDecode(piece[..eq.value]);
        var val := UrlDecode(piece[eq.value + 1..]);
        q := q[key := val];
      }
    }
  }

  datatype Pair = Pair(key: seq<Choice>, val: seq<Choice>)

  predicate PairsMayEncode(pairs: seq<Pair>, reserved: set<byte>) {
    forall i :: 0 <= i < |pairs| ==> MayEncode(pairs[i].key, reserved + {'&', '='}) && MayEncode(pairs[i].val, reserved + {'&'})
  }

  function EncodedPair(p: Pair): bytes {
    Encoded(p.key) + ['='] + Encoded(p.val)
  }

  function EncodedPairs(pairs: seq<Pair>): seq<bytes> {
    if pairs == [] then [] else [EncodedPair(pairs[0])] + EncodedPairs(pairs[1..])
  }

  function QueryText(pairs: seq<Pair>): bytes {
    Join<byte>(EncodedPairs(pairs), '&')
  }

  /** The map the pairs mean; the last of two equal keys wins. */
  function MeantPairs(q: Query, pairs: seq<Pair>): Query
    decreases |pairs|
  {
    if pairs == [] then q else MeantPairs(q[Meant(pairs[0].key) := Meant(pairs[0].val)], pairs[1..])
  }

  lemma AddEncodedPair(q: Query, p: Pair, reserved: set<byte>)
    requires PairsMayEncode([p], reserved)
    ensures AddPair(q, EncodedPair(p)) == q[Meant(p.key) := Meant(p.val)]
    ensures '&' !in EncodedPair(p) && EncodedPair(p) != []
  {
    assert PairsMayEncode([p], reserved) ==> MayEncode([p][0].key, reserved + {'&', '='}) && MayEncode([p][0].val, reserved + {'&'});
    var k, v := Encoded(p.key), Encoded(p.val);
    EncodedAvoids(p.key, reserved + {'&', '='});
    EncodedAvoids(p.val, reserved + {'&'});
    FindChar<byte>(k, v, '=');
    var piece := EncodedPair(p);
    assert piece[..|k|] == k && piece[|k| + 1..] == v;
    DecodeOfEncoded(p.key, reserved + {'&', '='});
    DecodeOfEncoded(p.val, reserved + {'&'});
  }

  lemma {:induction false} AddEncodedPairs(q: Query, pairs: seq<Pair>, reserved: set<byte>)
    requires PairsMayEncode(pairs, reserved)
    ensures AddPairs(q, EncodedPairs(pairs)) == MeantPairs(q, pairs)
    ensures |EncodedPairs(pairs)| == |pairs|
    ensures forall i :: 0 <= i < |pairs| ==> '&' !in EncodedPairs(pairs)[i] && EncodedPairs(pairs)[i] != []
    decreases |pairs|
  {
    if pairs != [] {
      assert PairsMayEncode([pairs[0]], reserved);
      AddEncodedPair(q, pairs[0], reserved);
      AddEncodedPairs(q[Meant(pairs[0].key) := Meant(pairs[0].val)], pairs[1..], reserved);
    }
  }

  /** Parsing an encoded query gives back what was meant. */
  lemma QueryRoundTrip(q: Query, pairs: seq<Pair>, reserved: set<byte>)
    requires PairsMayEncode(pairs, reserved)
    ensures AddPairs(q, Pieces<byte>(QueryText(pairs), '&')) == MeantPairs(q, pairs)
  {
    AddEncodedPairs(q, pairs, reserved);
    PiecesOfJoin<byte>(EncodedPairs(pairs), '&');
  }

  /** `pairs` lists the entries of a map, each once. */
  ghost predicate Lists(pairs: seq<Pair>, m: Query) {
    && (forall i, j :: 0 <= i < j < |pairs| ==> Meant(pairs[i].key) != Meant(pairs[j].key))
    && (forall i :: 0 <= i < |pairs| ==> Meant(pairs[i].key) in m && m[Meant(pairs[i].key)] == Meant(pairs[i].val))
    && (forall k :: k in m ==> exists i :: 0 <= i < |pairs| && Meant(pairs[i].key) == k)
  }

  lemma ListsTail(pairs: seq<Pair>, m: Query)
    requires Lists(pairs, m) && pairs != []
    ensures var k := Meant(pairs[0].key);
            k in m && m[k] == Meant(pairs[0].val) && Lists(pairs[1..], m - {k})
  {
    var k, tail := Meant(pairs[0].key), pairs[1..];
    var m' := m - {k};
    forall i | 0 <= i < |tail| ensures Meant(tail[i].key) in m' && m'[Meant(tail[i].key)] == Meant(tail[i].val) {
      assert tail[i] == pairs[i + 1];
    }
    forall x | x in m' ensures exists i :: 0 <= i < |tail| && Meant(tail[i].key) == x {
      var i := EntryOf(pairs, m, x);
      assert tail[i - 1] == pairs[i];
    }
  }

  lemma EntryOf(pairs: seq<Pair>, m: Query, x: bytes) returns (i: nat)
    requires Lists(pairs, m) && x in m
    ensures i < |pairs| && Meant(pairs[i].key) == x
  {
    i :| 0 <= i < |pairs| && Meant(pairs[i].key) == x;
  }

  lemma MergeOne(q: Query, m: Query, k: bytes)
    requires k in m
    ensures q[k := m[k]] + (m - {k}) == q + m
  {
  }

  lemma {:induction false} MeantPairsAre(q: Query, pairs: seq<Pair>, m: Query)
    requires Lists(pairs, m)
    requires q.Keys !! m.Keys
    ensures MeantPairs(q, pairs) == q + m
    decreases |pairs|
  {
    if pairs == [] {
      assert m.Keys == {};
    } else {
      var k, v := Meant(pairs[0].key), Meant(pairs[0].val);
      ListsTail(pairs, m);
      assert q[k := v].Keys !! (m - {k}).Keys;
      MeantPairsAre(q[k := v], pairs[1..], m - {k});
      MergeOne(q, m, k);
    }
  }

  /** For any map, in any order and under any encoder: parsing the printed query gives the map. */
  lemma MapRoundTrip(m: Query, pairs: seq<Pair>, reserved: set<byte>)
    requires Lists(pairs, m) && PairsMayEncode(pairs, reserved)
    ensures AddPairs(map[], Pieces<byte>(QueryText(pairs), '&')) == m
  {
    QueryRoundTrip(map[], pairs, reserved);
    MeantPairsAre(map[], pairs, m);
    assert map[] + m == m;
  }
}
