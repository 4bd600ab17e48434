// The std::string and stream operations the client relies on: find, getline, to_string and stoi.
module Text {
  import opened Bytes

  const DOT: uint8 := 46
  const COMMA: uint8 := 44
  const LBRACKET: uint8 := 91
  const RBRACKET: uint8 := 93
  const UNDERSCORE: uint8 := 95
  const SEMICOLON: uint8 := 59

  // The bytes of a text, to say what a constant or a rule means.
  function Ascii(s: string): (b: bytes)
    ensures |b| == |s|
  {
    seq(|s|, i requires 0 <= i < |s| => s[i] as int % 0x100)
  }

  predicate IsDigit(c: uint8) { 48 <= c <= 57 }
  predicate IsBlank(c: uint8) { c == 32 || c == 9 }
  predicate IsSpace(c: uint8) { c == 32 || 9 <= c <= 13 }

  // Position of the first `c`, or |s| for npos.
  function Find(s: bytes, c: uint8): (k: nat)
    ensures k <= |s| && c !in s[..k]
    ensures k < |s| ==> s[k] == c
  {
    if s == [] || s[0] == c then 0
    else
      var k := 1 + Find(s[1..], c);
      assert s[..k] == [s[0]] + s[1..][..k - 1];
      k
  }

  lemma FindIs(s: bytes, c: uint8, k: nat)
    requires k < |s| && s[k] == c && c !in s[..k]
    ensures Find(s, c) == k
  {
  }

  lemma FindNone(s: bytes, c: uint8)
    requires c !in s
    ensures Find(s, c) == |s|
  {
  }

  predicate MatchAt(s: bytes, sub: bytes, i: nat) {
    i + |sub| <= |s| && s[i..i + |sub|] == sub
  }

  // s.find(sub) != npos
  predicate Contains(s: bytes, sub: bytes) {
    exists i: nat | i <= |s| :: MatchAt(s, sub, i)
  }

  predicate ContainsAny(s: bytes, subs: seq<bytes>) {
    subs != [] && (Contains(s, subs[0]) || ContainsAny(s, subs[1..]))
  }

  // ---- std::getline over a whole string ----

  // One extraction: the text up to the separator, and what is left in the stream after it.
  function GetLine(s: bytes, c: uint8): (r: (bytes, bytes))
    requires s != []
    ensures |r.1| < |s|
  {
    var k := Find(s, c);
    if k == |s| then (s, []) else (s[..k], s[k + 1..])
  }

  // The pieces successive getline calls extract. Text after the last separator is a piece only
  // when it is non-empty.
  function Split(s: bytes, c: uint8): seq<bytes>
    decreases |s|
  {
    if s == [] then []
    else
      var (piece, rest) := GetLine(s, c);
      [piece] + Split(rest, c)
  }

  function Join(parts: seq<bytes>, c: uint8): bytes {
    if parts == [] then []
    else if |parts| == 1 then parts[0]
    else parts[0] + [c] + Join(parts[1..], c)
  }

  lemma {:induction false} SplitJoin(parts: seq<bytes>, c: uint8)
    requires forall p | p in parts :: c !in p
    requires parts != [] ==> parts[|parts| - 1] != []
    ensures Split(Join(parts, c), c) == parts
  {
    if |parts| == 0 {
    } else if |parts| == 1 {
      FindNone(parts[0], c);
    } else {
      var rest := Join(parts[1..], c);
      var s := parts[0] + [c] + rest;
      assert s[..|parts[0]|] == parts[0] && s[|parts[0]| + 1..] == rest;
      FindIs(s, c, |parts[0]|);
      SplitJoin(parts[1..], c);
    }
  }

  lemma {:induction false} JoinSnoc(parts: seq<bytes>, p: bytes, c: uint8)
    requires parts != []
    ensures Join(parts + [p], c) == Join(parts, c) + [c] + p
  {
    var both := parts + [p];
    assert both[1..] == parts[1..] + [p];
    if |parts| > 1 {
      JoinSnoc(parts[1..], p, c);
      assert Join(both, c) == parts[0] + [c] + (Join(parts[1..], c) + [c] + p);
    } else {
      assert Join(both, c) == parts[0] + [c] + Join([p], c);
    }
  }

  // ---- std::to_string of an int ----

  function DigitOf(k: nat): (c: uint8)
    requires k < 10
    ensures c == 48 + k
  {
    Ascii("0123456789")[k]
  }

  function Decimal(n: nat): bytes {
    if n < 10 then [DigitOf(n)] else Decimal(n / 10) + [DigitOf(n % 10)]
  }

  function SignedDecimal(n: int): bytes { if n < 0 then Ascii("-") + Decimal(-n) else Decimal(n) }

  predicate AllDigits(s: bytes) { forall i | 0 <= i < |s| :: IsDigit(s[i]) }

  lemma {:induction false} DecimalDigits(n: nat)
    ensures Decimal(n) != [] && AllDigits(Decimal(n))
    ensures DigitsValue(Decimal(n)) == n
  {
    if n >= 10 {
      DecimalDigits(n / 10);
      var s := Decimal(n / 10) + [48 + n % 10];
      assert s[..|s| - 1] == Decimal(n / 10);
    }
  }

  // ---- std::stoi ----

  function SkipSpace(s: bytes): bytes {
    if s != [] && IsSpace(s[0]) then SkipSpace(s[1..]) else s
  }

  function DigitPrefix(s: bytes): (k: nat)
    ensures k <= |s|
  {
    if s == [] || !IsDigit(s[0]) then 0 else 1 + DigitPrefix(s[1..])
  }

  function DigitsValue(s: bytes): int {
    if s == [] then 0 else 10 * DigitsValue(s[..|s| - 1]) + (s[|s| - 1] as int - 48)
  }

  // Leading white space and one sign are accepted, text after the digits is ignored, and a value
  // outside the 32-bit range throws.
  function Stoi(s: bytes): Result<int> {
    var t := SkipSpace(s);
    if t != [] && t[0] == 45 then StoiDigits(t[1..], -1)
    else if t != [] && t[0] == 43 then StoiDigits(t[1..], 1)
    else StoiDigits(t, 1)
  }

  function StoiDigits(u: bytes, sign: int): Result<int> {
    var k := DigitPrefix(u);
    if k == 0 then Err(NotANumber)
    else
      var n := sign * DigitsValue(u[..k]);
      if -0x8000_0000 <= n < 0x8000_0000 then Ok(n) else Err(OutOfRange)
  }

  lemma {:induction false} DigitPrefixIs(d: bytes, rest: bytes)
    requires AllDigits(d)
    requires rest != [] ==> !IsDigit(rest[0])
    ensures DigitPrefix(d + rest) == |d|
  {
    if d == [] {
      assert d + rest == rest;
    } else {
      assert (d + rest)[1..] == d[1..] + rest;
      DigitPrefixIs(d[1..], rest);
    }
  }

  // What counts as white space in front of a number.
  predicate AllSpaces(s: bytes) { forall i | 0 <= i < |s| :: s[i] in Ascii(" \t\n\U{0B}\U{0C}\r") }

  lemma SpacesAre(s: bytes)
    ensures AllSpaces(s) <==> forall i | 0 <= i < |s| :: IsSpace(s[i])
  {
    assert Ascii(" \t\n\U{0B}\U{0C}\r") == [32, 9, 10, 11, 12, 13];
  }

  lemma {:induction false} SkipSpaces(spaces: bytes, t: bytes)
    requires AllSpaces(spaces) && (t != [] ==> !IsSpace(t[0]))
    ensures SkipSpace(spaces + t) == t
  {
    if spaces == [] {
      assert spaces + t == t;
    } else {
      SpacesAre(spaces);
      assert (spaces + t)[1..] == spaces[1..] + t;
      SkipSpaces(spaces[1..], t);
    }
  }

  // White space and one sign in front of the digits.
  lemma StoiSigned(spaces: bytes, sign: string, u: bytes)
    requires AllSpaces(spaces) && sign in ["", "-", "+"]
    requires sign == "" && u != [] ==> !AllSpaces(u[..1]) && u[0] !in Ascii("-+")
    ensures Stoi(spaces + Ascii(sign) + u) == StoiDigits(u, if sign == "-" then -1 else 1)
  {
    hide StoiDigits;
    assert Ascii("-") == [45] && Ascii("+") == [43] && Ascii("") == [] && Ascii("-+") == [45, 43];
    var t := Ascii(sign) + u;
    if u != [] { SpacesAre(u[..1]); }
    SkipSpaces(spaces, t);
    assert spaces + Ascii(sign) + u == spaces + t;
    assert sign != "" ==> t[1..] == u;
    assert sign == "" ==> t == u;
  }

  // White space, a sign, a number and any text that does not start with a digit: the number is read, and
  // one that does not fit 32 bits throws.
  lemma StoiReads(spaces: bytes, sign: string, n: nat, rest: bytes)
    requires AllSpaces(spaces) && sign in ["", "-", "+"]
    requires rest != [] ==> !IsDigit(rest[0])
    ensures var v := (if sign == "-" then -1 else 1) * n;
            Stoi(spaces + Ascii(sign) + Decimal(n) + rest)
            == if -0x8000_0000 <= v <= 0x7FFF_FFFF then Ok(v) else Err(OutOfRange)
  {
    hide SkipSpace, Stoi;
    var d, u := Decimal(n), Decimal(n) + rest;
    DecimalDigits(n);
    DigitPrefixIs(d, rest);
    assert u[..|d|] == d && u[0] == d[0] && IsDigit(u[0]);
    SpacesAre(u[..1]);
    assert Ascii("-+") == [45, 43];
    StoiSigned(spaces, sign, u);
    Regroup(spaces + Ascii(sign), Decimal(n), rest);
  }

  // Where the digits are missing, it throws as well.
  lemma StoiRefuses(spaces: bytes, sign: string, rest: bytes)
    requires AllSpaces(spaces) && sign in ["", "-", "+"]
    requires rest != [] ==> !IsDigit(rest[0])
    requires sign == "" && rest != [] ==> !AllSpaces(rest[..1]) && rest[0] !in Ascii("-+")
    ensures Stoi(spaces + Ascii(sign) + rest) == Err(NotANumber)
  {
    hide Stoi;
    StoiSigned(spaces, sign, rest);
  }

  lemma DigitsAre(c: uint8)
    ensures IsDigit(c) <==> c in Ascii("0123456789")
  {
    if IsDigit(c) { assert Ascii("0123456789")[c - 48] == c; }
  }

  lemma StoiDecimal(n: nat)
    requires n < 0x8000_0000
    ensures Stoi(Decimal(n)) == Ok(n)
  {
    assert [] + Ascii("") + Decimal(n) + [] == Decimal(n);
    StoiReads([], "", n, []);
  }

  // std::stoi undoes std::to_string.
  lemma StoiSignedDecimal(n: int)
    requires -0x8000_0000 <= n < 0x8000_0000
    ensures Stoi(SignedDecimal(n)) == Ok(n)
  {
    hide Stoi, Decimal, Ascii;
    if n < 0 {
      StoiReads([], "-", -n, []);
      assert [] + Ascii("-") + Decimal(-n) + [] == SignedDecimal(n);
    } else {
      StoiDecimal(n);
    }
  }

  lemma DecimalHas(n: nat, c: uint8)
    requires !IsDigit(c)
    ensures c !in Decimal(n)
  {
  }
}
