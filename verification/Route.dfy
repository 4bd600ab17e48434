// Routes: the comma-separated text form and the EPATH port segments built from it
// (CIP Networks Library, Volume 1, Appendix C, section C-1.4.1).
module Route {
  import opened Bytes
  import opened Text

  datatype Hop = Hop(port: int, link: bytes)

  // ---- parsing ----

  function TrimLeft(s: bytes): (r: bytes)
    ensures r != [] ==> !IsBlank(r[0])
  {
    if s != [] && IsBlank(s[0]) then TrimLeft(s[1..]) else s
  }

  function TrimRight(s: bytes): (r: bytes)
    ensures r != [] ==> !IsBlank(r[|r| - 1])
  {
    if s != [] && IsBlank(s[|s| - 1]) then TrimRight(s[..|s| - 1]) else s
  }

  function Trim(s: bytes): bytes { TrimRight(TrimLeft(s)) }

  // The trimmed pieces; a piece of blanks only is dropped.
  function Tokens(pieces: seq<bytes>): seq<bytes> {
    if pieces == [] then []
    else
      var t := Trim(pieces[0]);
      (if t == [] then [] else [t]) + Tokens(pieces[1..])
  }

  // Port and link alternate; parsing stops at the first port that is not a number.
  function PairUp(tokens: seq<bytes>): Result<seq<Hop>> {
    if |tokens| < 2 then Ok([])
    else
      var port :- Stoi(tokens[0]);
      After([Hop(port, tokens[1])], PairUp(tokens[2..]))
  }

  function After(done: seq<Hop>, rest: Result<seq<Hop>>): Result<seq<Hop>> {
    if rest.Ok? then Ok(done + rest.value) else rest
  }

  function RouteOfTokens(tokens: seq<bytes>): Result<seq<Hop>> {
    if |tokens| % 2 != 0 then Err(OddRoute) else PairUp(tokens)
  }

  function ParsedRoute(text: bytes): Result<seq<Hop>> {
    RouteOfTokens(Tokens(Split(text, COMMA)))
  }

  // The tokenising loop of parseRouteString.
  method Tokenize(text: bytes) returns (tokens: seq<bytes>)
    ensures tokens == Tokens(Split(text, COMMA))
  {
    tokens := [];
    var unread := text;
    while unread != []
      invariant Tokens(Split(text, COMMA)) == tokens + Tokens(Split(unread, COMMA))
      decreases |unread|
    {
      ghost var pieces := Split(unread, COMMA);
      var (token, rest) := GetLine(unread, COMMA);
      unread := rest;
      assert pieces[0] == token && pieces[1..] == Split(unread, COMMA);
      var trimmed := Trim(token);
      if trimmed != [] {
        tokens := tokens + [trimmed];
      }
    }
  }

  // The pairing loop of parseRouteString.
  method Pair(tokens: seq<bytes>) returns (r: Result<seq<Hop>>)
    requires |tokens| % 2 == 0
    ensures r == PairUp(tokens)
  {
    var route: seq<Hop> := [];
    var i := 0;
    ghost var pairs := PairUp(tokens);
    AfterNothing(pairs);
    ghost var left := tokens;
    while i < |tokens|
      invariant i <= |tokens| && i % 2 == 0
      invariant left == tokens[i..] && pairs == After(route, PairUp(left))
    {
      var port := Stoi(tokens[i]);
      if port.Err? {
        return Err(port.error);
      }
      var hop := Hop(port.value, tokens[i + 1]);
      AfterStep(route, hop, PairUp(left[2..]));
      left := left[2..];
      route := route + [hop];
      i := i + 2;
    }
    AfterNothing(Ok(route));
    r := Ok(route);
  }

  method ParseRouteString(text: bytes) returns (r: Result<seq<Hop>>)
    ensures r == ParsedRoute(text)
  {
    if text == [] {
      return Ok([]);
    }
    var tokens := Tokenize(text);
    if |tokens| % 2 != 0 {
      return Err(OddRoute);
    }
    r := Pair(tokens);
  }

  lemma AfterNothing(rest: Result<seq<Hop>>)
    ensures After([], rest) == rest
    ensures rest.Ok? ==> After(rest.value, Ok([])) == rest
  {
    if rest.Ok? { assert [] + rest.value == rest.value + [] == rest.value; }
  }

  lemma AfterStep(done: seq<Hop>, h: Hop, rest: Result<seq<Hop>>)
    ensures After(done, After([h], rest)) == After(done + [h], rest)
  {
    if rest.Ok? { assert done + ([h] + rest.value) == done + [h] + rest.value; }
  }

  // ---- building ----

  predicate IsNumeric(link: bytes) { AllDigits(link) }

  // static_cast<uint8_t>(port) | 0x10
  function WithExtendedBit(port: uint8): uint8 {
    if port / 16 % 2 == 0 then port + 16 else port
  }

  // One port segment, padded on its own to an even length.
  function HopSegment(h: Hop): (r: Result<bytes>)
    ensures r.Ok? ==> |r.value| % 2 == 0
  {
    if IsNumeric(h.link) then
      var slot :- Stoi(h.link);
      Ok([ToU8(h.port), ToU8(slot)])
    else
      Ok(ExtendedSegment(h))
  }

  function ExtendedSegment(h: Hop): (b: bytes)
    ensures |b| % 2 == 0
  {
    [WithExtendedBit(ToU8(h.port)), ToU8(|h.link|)] + h.link + (if |h.link| % 2 == 1 then [0x00] else [])
  }

  function RoutePath(route: seq<Hop>): Result<bytes> {
    if route == [] then Ok([])
    else
      var first :- HopSegment(route[0]);
      Joined(first, RoutePath(route[1..]))
  }

  lemma {:induction false} RoutePathIsEven(route: seq<Hop>)
    ensures RoutePath(route).Ok? ==> |RoutePath(route).value| % 2 == 0
  {
    hide HopSegment;
    if route != [] { RoutePathIsEven(route[1..]); }
  }

  // The loop body of buildRoutePath. Its padding test looks at the length of the whole path; that
  // pads the new segment as if it stood alone because everything before it has an even length.
  method AppendHop(path: bytes, hop: Hop) returns (r: Result<bytes>)
    requires |path| % 2 == 0
    ensures r == Joined(path, HopSegment(hop))
    ensures r.Ok? ==> |r.value| % 2 == 0
  {
    hide Stoi, IsNumeric, WithExtendedBit;
    var out := path;
    if IsNumeric(hop.link) {
      var slot := Stoi(hop.link);
      if slot.Err? {
        return Err(slot.error);
      }
      out := out + [ToU8(hop.port)];
      out := out + [ToU8(slot.value)];
      assert out == path + [ToU8(hop.port), ToU8(slot.value)];
    } else {
      out := out + [WithExtendedBit(ToU8(hop.port))];
      out := out + [ToU8(|hop.link|)];
      out := out + hop.link;
      assert |out| == |path| + 2 + |hop.link|;
      if |out| % 2 == 1 {
        out := out + [0x00];
      }
      assert out == path + ExtendedSegment(hop);
    }
    r := Ok(out);
  }

  function Joined(first: bytes, rest: Result<bytes>): Result<bytes> {
    if rest.Ok? then Ok(first + rest.value) else rest
  }

  lemma JoinedStep(path: bytes, segment: Result<bytes>, rest: Result<bytes>)
    requires segment.Ok?
    ensures Joined(path, Joined(segment.value, rest)) == Joined(path + segment.value, rest)
  {
    if rest.Ok? { assert path + (segment.value + rest.value) == path + segment.value + rest.value; }
  }

  method BuildRoutePath(route: seq<Hop>) returns (r: Result<bytes>)
    ensures r == RoutePath(route)
    ensures r.Ok? ==> |r.value| % 2 == 0
  {
    var path: bytes := [];
    var k := 0;
    ghost var whole := RoutePath(route);
    assert route[0..] == route;
    assert whole.Ok? ==> [] + whole.value == whole.value;
    while k < |route|
      invariant k <= |route| && |path| % 2 == 0
      invariant RoutePath(route) == Joined(path, RoutePath(route[k..]))
    {
      ghost var rest := RoutePath(route[k + 1..]);
      assert route[k..][0] == route[k] && route[k..][1..] == route[k + 1..];
      var next := AppendHop(path, route[k]);
      if next.Err? {
        return next;
      }
      JoinedStep(path, HopSegment(route[k]), rest);
      path := next.value;
      k := k + 1;
    }
    assert path + [] == path;
    r := Ok(path);
  }

  // ---- reading back ----

  function DecodeHop(b: bytes): (r: Option<(Hop, bytes)>)
    ensures r.Some? ==> |r.value.1| < |b|
  {
    if |b| < 2 then None
    else if b[0] / 16 % 2 == 0 then Some((Hop(b[0], Decimal(b[1])), b[2..]))
    else
      var n: int := b[1];
      if 2 + n + n % 2 > |b| then None
      else Some((Hop(b[0] as int - 16, b[2..2 + n]), b[2 + n + n % 2..]))
  }

  function DecodeRoute(b: bytes): Option<seq<Hop>>
    decreases |b|
  {
    if b == [] then Some([])
    else
      match DecodeHop(b)
      case None => None
      case Some((h, rest)) =>
        match DecodeRoute(rest)
        case None => None
        case Some(more) => Some([h] + more)
  }

  function PrintedTokens(route: seq<Hop>): seq<bytes>
  {
    if route == [] then []
    else
      [SignedDecimal(route[0].port), route[0].link] + PrintedTokens(route[1..])
  }

  function PrintRoute(route: seq<Hop>): bytes
  {
    Join(PrintedTokens(route), Ascii(",")[0])
  }

  // What the text form can carry.
  predicate Printable(h: Hop) {
    && -0x8000_0000 <= h.port < 0x8000_0000
    && h.link != [] && COMMA !in h.link
    && !IsBlank(h.link[0]) && !IsBlank(h.link[|h.link| - 1])
  }

  // What a port segment can carry: a port below 15, and a slot number or an address.
  predicate Encodable(h: Hop) {
    && 1 <= h.port <= 14
    && (if IsNumeric(h.link) then CanonicalSlot(h.link) else |h.link| <= 255)
  }

  predicate CanonicalSlot(link: bytes) {
    0 <= DigitsValue(link) <= 255 && link == Decimal(DigitsValue(link))
  }

  lemma TokenOf(t: bytes)
    requires t != [] && !IsBlank(t[0]) && !IsBlank(t[|t| - 1])
    ensures Trim(t) == t
  {
  }

  lemma PortIsToken(n: int)
    ensures COMMA !in SignedDecimal(n) && SignedDecimal(n) != [] && Trim(SignedDecimal(n)) == SignedDecimal(n)
  {
    var d := Decimal(if n < 0 then -n else n);
    DecimalDigits(if n < 0 then -n else n);
    assert Ascii("-") == [45];
    TokenOf(SignedDecimal(n));
  }

  lemma {:induction false} TokensOfPrinted(route: seq<Hop>)
    requires forall h | h in route :: Printable(h)
    ensures Tokens(PrintedTokens(route)) == PrintedTokens(route)
    ensures forall p | p in PrintedTokens(route) :: COMMA !in p && p != []
    decreases |route|
  {
    hide Trim, SignedDecimal, Tokens, IsBlank;
    NoTokens();
    if route != [] {
      var h := route[0];
      assert h in route && Printable(h);
      var rest := PrintedTokens(route[1..]);
      TokensOfPrinted(route[1..]);
      PortIsToken(h.port);
      TokenOf(h.link);
      TokensCons(h.link, rest);
      TokensCons(SignedDecimal(h.port), [h.link] + rest);
      assert PrintedTokens(route) == [SignedDecimal(h.port)] + ([h.link] + rest);
    }
  }

  lemma NoTokens()
    ensures Tokens([]) == []
  {
  }

  lemma TokensCons(t: bytes, rest: seq<bytes>)
    requires t != [] && Trim(t) == t
    ensures Tokens([t] + rest) == [t] + Tokens(rest)
  {
  }

  lemma {:induction false} PairsOfPrinted(route: seq<Hop>)
    requires forall h | h in route :: Printable(h)
    ensures |PrintedTokens(route)| == 2 * |route|
    ensures PairUp(PrintedTokens(route)) == Ok(route)
  {
    if route != [] {
      var h := route[0];
      assert h in route && Printable(h);
      var rest := PrintedTokens(route[1..]);
      PairsOfPrinted(route[1..]);
      StoiSignedDecimal(h.port);
      assert PrintedTokens(route)[2..] == rest;
      assert [h] + route[1..] == route;
    }
  }

  lemma SplitPrinted(route: seq<Hop>)
    requires forall h | h in route :: Printable(h)
    ensures Split(PrintRoute(route), COMMA) == PrintedTokens(route)
  {
    hide Tokens, Ascii, PrintedTokens;
    CommaIs();
    TokensOfPrinted(route);
    var ts := PrintedTokens(route);
    assert ts != [] ==> ts[|ts| - 1] in ts;
    SplitJoin(ts, COMMA);
  }

  // Parsing the printed form of a route gives the route back.
  lemma RouteTextRoundTrip(route: seq<Hop>)
    requires forall h | h in route :: Printable(h)
    ensures ParsedRoute(PrintRoute(route)) == Ok(route)
  {
    SplitPrinted(route);
    PairsOfPrinted(route);
    TokensOfPrinted(route);
    EvenTokens(PrintedTokens(route), |route|);
  }

  lemma EvenTokens(tokens: seq<bytes>, n: nat)
    requires |tokens| == 2 * n
    ensures RouteOfTokens(tokens) == PairUp(tokens)
  {
  }

  lemma CommaIs()
    ensures Ascii(",")[0] == COMMA
  {
  }

  // ---- blanks ----

  // Spaces and tabs.
  predicate Blanks(s: bytes) { forall i | 0 <= i < |s| :: s[i] in Ascii(" \t") }

  // Every token with some text in front of it and some behind.
  function Spaced(ts: seq<bytes>, left: seq<bytes>, right: seq<bytes>): (ps: seq<bytes>)
    requires |ts| == |left| == |right|
    ensures |ps| == |ts| && forall i | 0 <= i < |ts| :: ps[i] == left[i] + ts[i] + right[i]
  {
    seq(|ts|, i requires 0 <= i < |ts| => left[i] + ts[i] + right[i])
  }

  lemma BlanksAreBlank(s: bytes)
    ensures Blanks(s) <==> forall i | 0 <= i < |s| :: IsBlank(s[i])
  {
    assert Ascii(" \t") == [32, 9];
  }

  lemma {:induction false} TrimLeftBlanks(l: bytes, t: bytes)
    requires Blanks(l) && t != [] && !IsBlank(t[0])
    ensures TrimLeft(l + t) == t
  {
    if l == [] {
      assert l + t == t;
    } else {
      BlanksAreBlank(l);
      TrimLeftBlanks(l[1..], t);
      assert (l + t)[1..] == l[1..] + t;
    }
  }

  lemma {:induction false} TrimRightBlanks(t: bytes, r: bytes)
    requires Blanks(r) && t != [] && !IsBlank(t[|t| - 1])
    ensures TrimRight(t + r) == t
    decreases |r|
  {
    if r == [] {
      assert t + r == t;
    } else {
      BlanksAreBlank(r);
      TrimRightBlanks(t, r[..|r| - 1]);
      assert (t + r)[..|t + r| - 1] == t + r[..|r| - 1];
    }
  }

  lemma TrimSpaced(l: bytes, t: bytes, r: bytes)
    requires Blanks(l) && Blanks(r) && t != [] && Trim(t) == t
    ensures Trim(l + t + r) == t
  {
    TightEnds(t);
    TrimLeftBlanks(l, t + r);
    assert l + t + r == l + (t + r);
    TrimRightBlanks(t, r);
  }

  lemma TightEnds(t: bytes)
    requires t != [] && Trim(t) == t
    ensures !IsBlank(t[0]) && !IsBlank(t[|t| - 1])
  {
    TrimIsShorter(t);
    if IsBlank(t[0]) { TrimIsShorter(t[1..]); }
  }

  lemma TrimIsShorter(s: bytes)
    ensures |TrimLeft(s)| <= |s| && |TrimRight(s)| <= |s| && |Trim(s)| <= |s|
  {
    LeftIsShorter(s);
    RightIsShorter(s);
    RightIsShorter(TrimLeft(s));
  }

  lemma {:induction false} LeftIsShorter(s: bytes)
    ensures |TrimLeft(s)| <= |s|
  {
    if s != [] && IsBlank(s[0]) { LeftIsShorter(s[1..]); }
  }

  lemma {:induction false} RightIsShorter(s: bytes)
    ensures |TrimRight(s)| <= |s|
  {
    if s != [] && IsBlank(s[|s| - 1]) { RightIsShorter(s[..|s| - 1]); }
  }

  predicate AllBlanks(ss: seq<bytes>) { forall i | 0 <= i < |ss| :: Blanks(ss[i]) }

  lemma {:induction false} TokensSpaced(ts: seq<bytes>, left: seq<bytes>, right: seq<bytes>)
    requires |ts| == |left| == |right| && AllBlanks(left) && AllBlanks(right)
    requires forall i | 0 <= i < |ts| :: ts[i] != [] && Trim(ts[i]) == ts[i]
    ensures Tokens(Spaced(ts, left, right)) == ts
  {
    hide Trim, Blanks;
    if ts != [] {
      TokensSpaced(ts[1..], left[1..], right[1..]);
      TrimSpaced(left[0], ts[0], right[0]);
      assert Spaced(ts, left, right)[1..] == Spaced(ts[1..], left[1..], right[1..]);
    }
  }

  lemma {:induction false} PrintedAreTight(route: seq<Hop>)
    requires forall h | h in route :: Printable(h)
    ensures forall i | 0 <= i < |PrintedTokens(route)| ::
      var t := PrintedTokens(route)[i]; t != [] && Trim(t) == t && COMMA !in t
    decreases |route|
  {
    if route != [] {
      assert route[0] in route && Printable(route[0]);
      PrintedAreTight(route[1..]);
      PortIsToken(route[0].port);
      TokenOf(route[0].link);
    }
  }

  // Spaces and tabs around the values of a route, in any number, change nothing.
  lemma RouteWithBlanks(route: seq<Hop>, left: seq<bytes>, right: seq<bytes>)
    requires forall h | h in route :: Printable(h)
    requires |left| == |right| == |PrintedTokens(route)| && AllBlanks(left) && AllBlanks(right)
    ensures ParsedRoute(Join(Spaced(PrintedTokens(route), left, right), Ascii(",")[0])) == Ok(route)
  {
    hide Trim, Blanks, Ascii, PairUp, RouteOfTokens;
    CommaIs();
    var ts := PrintedTokens(route);
    var ps := Spaced(ts, left, right);
    PrintedAreTight(route);
    forall i | 0 <= i < |ps| ensures COMMA !in ps[i] && ps[i] != [] {
      NoComma(left[i]);
      NoComma(right[i]);
    }
    SplitJoin(ps, COMMA);
    TokensSpaced(ts, left, right);
    PairsOfPrinted(route);
    EvenTokens(ts, |route|);
  }

  lemma NoComma(s: bytes)
    requires Blanks(s)
    ensures COMMA !in s
  {
    BlanksAreBlank(s);
  }

  lemma DecodeExtended(h: Hop, more: bytes)
    requires 1 <= h.port <= 14 && |h.link| <= 255
    ensures DecodeHop(ExtendedSegment(h) + more) == Some((h, more))
  {
    var b := ExtendedSegment(h) + more;
    var n := |h.link|;
    assert b[0] == h.port + 16 && b[1] == n;
    assert |ExtendedSegment(h)| == 2 + n + n % 2;
    assert b[2..2 + n] == h.link;
    assert b[2 + n + n % 2..] == more;
  }

  lemma DecodeSlot(port: uint8, slot: uint8, more: bytes)
    requires port <= 14
    ensures DecodeHop([port, slot] + more) == Some((Hop(port, Decimal(slot)), more))
  {
  }

  lemma DecodeHopOf(h: Hop, more: bytes)
    requires Encodable(h)
    ensures HopSegment(h).Ok?
    ensures DecodeHop(HopSegment(h).value + more) == Some((h, more))
  {
    hide DecodeHop, ExtendedSegment, Stoi, Decimal, DigitsValue, AllDigits;
    if IsNumeric(h.link) {
      var slot := DigitsValue(h.link);
      StoiDecimal(slot);
      DecodeSlot(h.port, slot, more);
    } else {
      DecodeExtended(h, more);
    }
  }

  // Decoding the built path gives the route back.
  lemma {:induction false} RoutePathRoundTrip(route: seq<Hop>)
    requires forall h | h in route :: Encodable(h)
    ensures RoutePath(route).Ok?
    ensures DecodeRoute(RoutePath(route).value) == Some(route)
  {
    hide HopSegment, DecodeHop, Encodable;
    if route != [] {
      assert route[0] in route;
      RoutePathRoundTrip(route[1..]);
      DecodeHopOf(route[0], RoutePath(route[1..]).value);
      assert [route[0]] + route[1..] == route;
    }
  }

  // From the text a user types to the bytes on the wire and back.
  lemma RouteEndToEnd(route: seq<Hop>)
    requires forall h | h in route :: Printable(h) && Encodable(h)
    ensures ParsedRoute(PrintRoute(route)).Ok?
    ensures var path := RoutePath(ParsedRoute(PrintRoute(route)).value);
            path.Ok? && DecodeRoute(path.value) == Some(route)
  {
    RouteTextRoundTrip(route);
    RoutePathRoundTrip(route);
  }
}
