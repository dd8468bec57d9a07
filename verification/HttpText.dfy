/** The character-level functions of the HTTP layer: trimming, case, words, decimal numbers. */
module HttpText {
  import opened Bytes

  // ----- case -----

  function LowerChar(c: byte): byte {
    if 'A' <= c <= 'Z' then (c as int + 32) as char else c
  }

  function UpperChar(c: byte): byte {
    if 'a' <= c <= 'z' then (c as int - 32) as char else c
  }

  function Lower(s: bytes): (r: bytes)
    ensures |r| == |s|
  {
    seq(|s|, i requires 0 <= i < |s| => LowerChar(s[i]))
  }

  function Upper(s: bytes): (r: bytes)
    ensures |r| == |s|
  {
    seq(|s|, i requires 0 <= i < |s| => UpperChar(s[i]))
  }

  /** Names that differ in case only have the same lower-case form, and it is its own. */
  lemma CaseIsIgnored(s: bytes)
    ensures Lower(Upper(s)) == Lower(s) && Upper(Lower(s)) == Upper(s)
    ensures Lower(Lower(s)) == Lower(s) && Upper(Upper(s)) == Upper(s)
  {
    assert forall i :: 0 <= i < |s| ==> LowerChar(UpperChar(s[i])) == LowerChar(s[i]);
    assert Lower(Upper(s)) == Lower(s);
    assert Upper(Lower(s)) == Upper(s);
  }

  /** By the codes of the characters: A to Z are 65 to 90, a to z are 97 to 122. */
  lemma CaseAt(s: bytes, i: nat)
    requires i < |s|
    ensures Lower(s)[i] as int == s[i] as int + if 65 <= s[i] as int <= 90 then 32 else 0
    ensures Upper(s)[i] as int == s[i] as int - if 97 <= s[i] as int <= 122 then 32 else 0
  {
  }

  // ----- trim -----

  predicate IsTrimmable(c: byte) {
    c == ' ' || c == '\t' || c == '\r' || c == '\n'
  }

  function TrimLeft(s: bytes): bytes {
    if s != [] && IsTrimmable(s[0]) then TrimLeft(s[1..]) else s
  }

  function TrimRight(s: bytes): bytes {
    if s != [] && IsTrimmable(s[|s| - 1]) then TrimRight(s[..|s| - 1]) else s
  }

  function Trim(s: bytes): bytes {
    TrimRight(TrimLeft(s))
  }

  predicate AllTrimmable(s: bytes) {
    forall i :: 0 <= i < |s| ==> IsTrimmable(s[i])
  }

  predicate Tight(s: bytes) {
    s == [] || (!IsTrimmable(s[0]) && !IsTrimmable(s[|s| - 1]))
  }

  lemma {:induction false} TrimLeftOf(pad: bytes, s: bytes)
    requires AllTrimmable(pad) && (s == [] || !IsTrimmable(s[0]))
    ensures TrimLeft(pad + s) == s
  {
    if pad != [] {
      assert (pad + s)[1..] == pad[1..] + s;
      TrimLeftOf(pad[1..], s);
    } else {
      assert pad + s == s;
    }
  }

  lemma {:induction false} TrimRightOf(s: bytes, pad: bytes)
    requires AllTrimmable(pad) && (s == [] || !IsTrimmable(s[|s| - 1]))
    ensures TrimRight(s + pad) == s
  {
    if pad != [] {
      assert (s + pad)[..|s + pad| - 1] == s + pad[..|pad| - 1];
      TrimRightOf(s, pad[..|pad| - 1]);
    } else {
      assert s + pad == s;
    }
  }

  /** Trimming removes the padding around a text that neither starts nor ends with white space. */
  lemma TrimOf(left: bytes, s: bytes, right: bytes)
    requires AllTrimmable(left) && AllTrimmable(right) && Tight(s)
    ensures Trim(left + s + right) == s
  {
    if s == [] {
      assert left + s + right == (left + right) + [];
      TrimLeftOf(left + right, []);
    } else {
      assert left + s + right == left + (s + right);
      TrimLeftOf(left, s + right);
      TrimRightOf(s, right);
    }
  }

  lemma TrimOfTight(s: bytes)
    requires Tight(s)
    ensures Trim(s) == s
  {
    TrimOf([], s, []);
    assert [] + s + [] == s;
  }

  /** Tab, line feed, carriage return and space. */
  predicate AllBlank(s: bytes) {
    forall i :: 0 <= i < |s| ==> s[i] as int in {9, 10, 13, 32}
  }

  /** What trimming leaves of any text: all but the blanks at its ends. */
  lemma {:induction false} TrimLeftIs(s: bytes) returns (i: nat)
    ensures i <= |s| && TrimLeft(s) == s[i..] && AllBlank(s[..i])
    ensures i < |s| ==> s[i] as int !in {9, 10, 13, 32}
  {
    if s != [] && IsTrimmable(s[0]) {
      var k := TrimLeftIs(s[1..]);
      i := k + 1;
      assert s[..i] == [s[0]] + s[1..][..k];
    } else {
      i := 0;
    }
  }

  lemma {:induction false} TrimRightIs(s: bytes) returns (j: nat)
    ensures j <= |s| && TrimRight(s) == s[..j] && AllBlank(s[j..])
    ensures j > 0 ==> s[j - 1] as int !in {9, 10, 13, 32}
  {
    if s != [] && IsTrimmable(s[|s| - 1]) {
      j := TrimRightIs(s[..|s| - 1]);
      assert s[..|s| - 1][..j] == s[..j];
      assert s[j..] == s[..|s| - 1][j..] + [s[|s| - 1]];
    } else {
      j := |s|;
      assert s[..j] == s;
    }
  }

  lemma TrimIs(s: bytes) returns (i: nat, j: nat)
    ensures i <= j <= |s| && Trim(s) == s[i..j] && AllBlank(s[..i]) && AllBlank(s[j..])
    ensures i < j ==> s[i] as int !in {9, 10, 13, 32} && s[j - 1] as int !in {9, 10, 13, 32}
  {
    i := TrimLeftIs(s);
    var k := TrimRightIs(s[i..]);
    j := i + k;
    assert s[i..][..k] == s[i..j] && s[i..][k..] == s[j..];
    assert k > 0 ==> s[i..][k - 1] == s[j - 1];
  }

  // ----- words, as read by operator>> -----

  /** isspace */
  predicate IsSpace(c: byte) {
    c == ' ' || 9 <= c as int <= 13
  }

  function SkipSpaces(s: bytes): (r: bytes)
    ensures |r| <= |s|
  {
    if s != [] && IsSpace(s[0]) then SkipSpaces(s[1..]) else s
  }

  function WordLength(s: bytes): (n: nat)
    ensures n <= |s|
  {
    if s == [] || IsSpace(s[0]) then 0 else 1 + WordLength(s[1..])
  }

  /** The next word, empty if there is none, and what is left. */
  function Word(s: bytes): (bytes, bytes) {
    var t := SkipSpaces(s);
    (t[..WordLength(t)], t[WordLength(t)..])
  }

  predicate IsWord(s: bytes) {
    s != [] && forall i :: 0 <= i < |s| ==> !IsSpace(s[i])
  }

  lemma {:induction false} WordLengthOf(w: bytes, t: bytes)
    requires forall i :: 0 <= i < |w| ==> !IsSpace(w[i])
    requires t == [] || IsSpace(t[0])
    ensures WordLength(w + t) == |w|
  {
    if w == [] {
      assert w + t == t;
    } else {
      assert (w + t)[1..] == w[1..] + t;
      WordLengthOf(w[1..], t);
    }
  }

  lemma WordOf(w: bytes, t: bytes)
    requires IsWord(w) && (t == [] || IsSpace(t[0]))
    ensures Word(w + t) == (w, t)
    ensures Word([' '] + w + t) == (w, t)
  {
    WordLengthOf(w, t);
    assert SkipSpaces(w + t) == w + t;
    assert ([' '] + w + t)[1..] == w + t;
    assert (w + t)[..|w|] == w && (w + t)[|w|..] == t;
  }

  /** Tab, line feed, vertical tab, form feed, carriage return and space. */
  predicate IsGap(c: byte) { c as int == 32 || 9 <= c as int <= 13 }

  lemma {:induction false} SkipIs(s: bytes) returns (k: nat)
    ensures k <= |s| && SkipSpaces(s) == s[k..] && (forall i :: 0 <= i < k ==> IsGap(s[i])) && (k < |s| ==> !IsGap(s[k]))
  {
    if s != [] && IsSpace(s[0]) {
      var r := SkipIs(s[1..]);
      k := r + 1;
      assert forall i :: 0 < i < k ==> s[i] == s[1..][i - 1];
    } else {
      k := 0;
    }
  }

  lemma {:induction false} WordLengthIs(s: bytes)
    ensures var n := WordLength(s);
            (forall i :: 0 <= i < n ==> !IsGap(s[i])) && (n < |s| ==> IsGap(s[n]))
  {
    if s != [] && !IsSpace(s[0]) {
      WordLengthIs(s[1..]);
      var n := WordLength(s);
      assert forall i :: 0 < i < n ==> s[i] == s[1..][i - 1];
    }
  }

  /** What extraction does with any text: gaps are skipped, and the word is what stands before the next gap. */
  lemma WordIs(s: bytes) returns (k: nat, n: nat)
    ensures k + n <= |s| && Word(s) == (s[k..k + n], s[k + n..])
    ensures forall i :: 0 <= i < k ==> IsGap(s[i])
    ensures forall i :: k <= i < k + n ==> !IsGap(s[i])
    ensures k + n < |s| ==> n > 0 && IsGap(s[k + n])
  {
    k := SkipIs(s);
    var t := s[k..];
    n := WordLength(t);
    WordLengthIs(t);
    assert t[..n] == s[k..k + n] && t[n..] == s[k + n..];
    forall i | k <= i < k + n ensures !IsGap(s[i]) {
      assert s[i] == t[i - k];
    }
    assert k + n < |s| ==> s[k + n] == t[n];
  }

  // ----- std::stoi -----

  predicate IsDigit(c: byte) { '0' <= c <= '9' }

  function DigitsLength(s: bytes): (n: nat)
    ensures n <= |s| && forall i :: 0 <= i < n ==> IsDigit(s[i])
  {
    if s == [] || !IsDigit(s[0]) then 0 else 1 + DigitsLength(s[1..])
  }

  function DigitsValue(s: bytes): (n: nat)
    requires forall i :: 0 <= i < |s| ==> IsDigit(s[i])
  {
    if s == [] then 0
    else
      assert IsDigit(s[|s| - 1]);
      10 * DigitsValue(s[..|s| - 1]) + (s[|s| - 1] as int - '0' as int)
  }

  const INT_MAX: int := 0x7FFF_FFFF

  /** The number at the front of the text; None where std::stoi throws (no digits, or out of range). */
  function Stoi(s: bytes): Option<int> {
    var t := SkipSpaces(s);
    var negative := t != [] && t[0] == '-';
    var u := if t != [] && (t[0] == '-' || t[0] == '+') then t[1..] else t;
    var n := DigitsLength(u);
    var v: int := if negative then 0 - DigitsValue(u[..n]) else DigitsValue(u[..n]);
    if n == 0 || v > INT_MAX || v < -INT_MAX - 1 then None else Some(v)
  }

  function Decimal(n: nat): (r: bytes)
    ensures r != [] && forall i :: 0 <= i < |r| ==> IsDigit(r[i])
  {
    (if n < 10 then [] else Decimal(n / 10)) + [(n % 10 + '0' as int) as char]
  }

  lemma {:induction false} DigitsLengthOf(s: bytes)
    requires forall i :: 0 <= i < |s| ==> IsDigit(s[i])
    ensures DigitsLength(s) == |s|
  {
    if s != [] {
      DigitsLengthOf(s[1..]);
    }
  }

  lemma {:induction false} DigitsValueOfDecimal(n: nat)
    ensures DigitsValue(Decimal(n)) == n
  {
    var d := Decimal(n);
    if n >= 10 {
      DigitsValueOfDecimal(n / 10);
      assert d[..|d| - 1] == Decimal(n / 10);
    } else {
      assert d[..|d| - 1] == [];
    }
  }

  /** Reading a printed number gives the number, and fails if and only if it is out of range. */
  lemma StoiOfDecimal(n: nat)
    ensures Stoi(Decimal(n)) == if n <= INT_MAX then Some(n) else None
  {
    var d := Decimal(n);
    assert IsDigit(d[0]) && SkipSpaces(d) == d;
    DigitsLengthOf(d);
    assert d[..|d|] == d;
    DigitsValueOfDecimal(n);
  }

  lemma {:induction false} SkipGaps(pad: bytes, s: bytes)
    requires (forall i :: 0 <= i < |pad| ==> IsGap(pad[i])) && (s == [] || !IsGap(s[0]))
    ensures SkipSpaces(pad + s) == s
  {
    if pad == [] {
      assert pad + s == s;
    } else {
      assert (pad + s)[1..] == pad[1..] + s;
      SkipGaps(pad[1..], s);
    }
  }

  lemma {:induction false} DigitsThen(d: bytes, rest: bytes)
    requires (forall i :: 0 <= i < |d| ==> IsDigit(d[i])) && (rest == [] || !IsDigit(rest[0]))
    ensures DigitsLength(d + rest) == |d|
  {
    if d == [] {
      assert d + rest == rest;
    } else {
      assert (d + rest)[1..] == d[1..] + rest;
      DigitsThen(d[1..], rest);
    }
  }

  /** Around the digits: gaps in front, one sign, and anything but a digit behind. */
  lemma StoiOfSigned(pad: bytes, sign: bytes, n: nat, rest: bytes)
    requires forall i :: 0 <= i < |pad| ==> IsGap(pad[i])
    requires (sign == [] || sign == ['+'] || sign == ['-']) && (rest == [] || !IsDigit(rest[0]))
    ensures var v: int := if sign == ['-'] then 0 - n else n;
            Stoi(pad + (sign + (Decimal(n) + rest))) == if -0x8000_0000 <= v <= 0x7FFF_FFFF then Some(v) else None
  {
    var d := Decimal(n);
    var u := d + rest;
    var t := sign + u;
    assert IsDigit(d[0]) && u[0] == d[0];
    assert t[0] == if sign == [] then d[0] else sign[0];
    SkipGaps(pad, t);
    assert sign == [] ==> t == u;
    assert sign != [] ==> t[1..] == u;
    DigitsThen(d, rest);
    assert u[..|d|] == d;
    DigitsValueOfDecimal(n);
  }

  /** Without a digit there is no number. */
  lemma StoiOfNothing(pad: bytes, sign: bytes, rest: bytes)
    requires forall i :: 0 <= i < |pad| ==> IsGap(pad[i])
    requires (sign == [] || sign == ['+'] || sign == ['-']) && (rest == [] || !IsDigit(rest[0]))
    requires sign == [] && rest != [] ==> !IsGap(rest[0]) && rest[0] != '+' && rest[0] != '-'
    ensures Stoi(pad + (sign + rest)) == None
  {
    SkipGaps(pad, sign + rest);
    assert sign == [] ==> sign + rest == rest;
    assert sign != [] ==> (sign + rest)[1..] == rest;
  }
}
