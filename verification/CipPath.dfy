// EPATH segments: logical class/instance paths and ANSI extended symbol segments
// (CIP Networks Library, Volume 1, Appendix C, section C-1.4).
module CipPath {
  import opened Bytes
  import opened Text

  // ---- logical segments ----

  // `instance` is a signed int: a negative one leaves the instance segment out.
  function LogicalPath(cipClass: uint16, instance: int): bytes {
    (if cipClass <= 0xFF then [0x20, cipClass] else [0x21, 0x00] + LE16(cipClass))
    + (if instance < 0 then []
       else if instance <= 0xFF then [0x24, instance]
       else [0x25, 0x00] + LE16(ToU16(instance)))
  }

  method BuildCipPath(cipClass: uint16, instance: int) returns (path: bytes)
    ensures path == LogicalPath(cipClass, instance)
  {
    path := [];
    if cipClass <= 0xFF {
      path := path + [0x20];
      path := path + [ToU8(cipClass)];
    } else {
      path := path + [0x21];
      path := path + [0x00];
      path := path + LE16(cipClass);
    }
    if instance >= 0 {
      if instance <= 0xFF {
        path := path + [0x24];
        path := path + [ToU8(instance)];
      } else {
        path := path + [0x25];
        path := path + [0x00];
        path := path + LE16(ToU16(instance));
      }
    }
  }

  // One logical segment with the given 8-bit opcode, and what follows it.
  function DecodeLogical(b: bytes, opcode: uint8): Option<(uint16, bytes)>
    requires opcode < 0xFF
  {
    if |b| >= 2 && b[0] == opcode then Some((b[1] as int, b[2..]))
    else if |b| >= 4 && b[0] == opcode + 1 && b[1] == 0 then Some((ReadU16(b, 2), b[4..]))
    else None
  }

  // The reader of a class/instance path: class, instance and the bytes after the path.
  function DecodeClassInstance(b: bytes): Option<(uint16, uint16, bytes)> {
    match DecodeLogical(b, 0x20)
    case None => None
    case Some((c, rest)) =>
      match DecodeLogical(rest, 0x24)
      case None => None
      case Some((i, after)) => Some((c, i, after))
  }

  lemma ClassInstanceRoundTrip(cipClass: uint16, instance: uint16, rest: bytes)
    ensures DecodeClassInstance(LogicalPath(cipClass, instance) + rest) == Some((cipClass, instance, rest))
    ensures |LogicalPath(cipClass, instance)| % 2 == 0 && |LogicalPath(cipClass, instance)| <= 8
  {
  }

  // ---- symbolic segments ----

  // A dotted-name component with an optional array index.
  datatype Component = Component(name: bytes, index: Option<nat>)

  function ElementSegment(index: int): (b: bytes)
    ensures |b| % 2 == 0
  {
    if index < 0 then []
    else if index <= 0xFF then [0x28, index]
    else [0x29, 0x00] + LE16(ToU16(index))
  }

  function NameSegment(name: bytes): (b: bytes)
    ensures |b| % 2 == 0
  {
    [0x91, ToU8(|name|)] + name + (if |name| % 2 == 1 then [0x00] else [])
  }

  function Segment(name: bytes, index: int): (b: bytes)
    ensures |b| % 2 == 0
  {
    NameSegment(name) + ElementSegment(index)
  }

  // Name and index text of one piece between dots; the index is -1 when there is none.
  function ParsePart(part: bytes): Result<(bytes, int)> {
    var open := Find(part, LBRACKET);
    if open == |part| then Ok((part, -1))
    else
      var close := open + Find(part[open..], RBRACKET);
      if close == |part| then Ok((part[..open], -1))
      else
        var i :- Stoi(part[open + 1..close]);
        Ok((part[..open], i))
  }

  function PartSegment(part: bytes): (r: Result<bytes>)
    ensures r.Ok? ==> |r.value| % 2 == 0
  {
    var (name, index) :- ParsePart(part);
    Ok(Segment(name, index))
  }

  function Append(first: Result<bytes>, rest: Result<bytes>): (r: Result<bytes>)
    requires first.Ok? ==> |first.value| % 2 == 0
    requires rest.Ok? ==> |rest.value| % 2 == 0
    ensures r.Ok? ==> |r.value| % 2 == 0
  {
    var a :- first;
    var b :- rest;
    Ok(a + b)
  }

  // The pieces are handled left to right, so the first one that throws decides the error.
  function PartsSegments(parts: seq<bytes>): (r: Result<bytes>)
    ensures r.Ok? ==> |r.value| % 2 == 0
  {
    if parts == [] then Ok([]) else Append(PartSegment(parts[0]), PartsSegments(parts[1..]))
  }

  function SymbolicPath(tagName: bytes): Result<bytes> {
    PartsSegments(Split(tagName, DOT))
  }

  method BuildSymbolicSegment(tagName: bytes) returns (r: Result<bytes>)
    ensures r == SymbolicPath(tagName)
  {
    var seg: bytes := [];
    var unread := tagName;
    ghost var all := PartsSegments(Split(tagName, DOT));
    assert all.Ok? ==> [] + all.value == all.value;
    while unread != []
      invariant |seg| % 2 == 0
      invariant SymbolicPath(tagName) == Append(Ok(seg), PartsSegments(Split(unread, DOT)))
      decreases |unread|
    {
      ghost var parts := Split(unread, DOT);
      var (part, rest) := GetLine(unread, DOT);
      unread := rest;
      assert parts[0] == part && parts[1..] == Split(unread, DOT);
      AppendAssoc(Ok(seg), PartSegment(part), PartsSegments(parts[1..]));

      var segment := BuildComponent(part);
      if segment.Err? {
        return Err(segment.error);
      }
      seg := seg + segment.value;
    }
    assert seg + [] == seg;
    r := Ok(seg);
  }

  lemma AppendAssoc(a: Result<bytes>, b: Result<bytes>, c: Result<bytes>)
    requires a.Ok? ==> |a.value| % 2 == 0
    requires b.Ok? ==> |b.value| % 2 == 0
    requires c.Ok? ==> |c.value| % 2 == 0
    ensures Append(Append(a, b), c) == Append(a, Append(b, c))
  {
    if a.Ok? && b.Ok? && c.Ok? {
      assert a.value + b.value + c.value == a.value + (b.value + c.value);
    }
  }

  // The loop body of buildSymbolicSegment: one piece between dots.
  method BuildComponent(part: bytes) returns (r: Result<bytes>)
    ensures r == PartSegment(part)
  {
    var symName := part;
    var arrayIndex := -1;
    var open := Find(part, LBRACKET);
    if open < |part| {
      symName := part[..open];
      var close := open + Find(part[open..], RBRACKET);
      if close < |part| {
        var i := Stoi(part[open + 1..close]);
        if i.Err? {
          return Err(i.error);
        }
        arrayIndex := i.value;
      }
    }
    assert ParsePart(part) == Ok((symName, arrayIndex));
    var seg := AppendSegment(symName, arrayIndex);
    r := Ok(seg);
  }

  method AppendSegment(symName: bytes, arrayIndex: int) returns (seg: bytes)
    ensures seg == Segment(symName, arrayIndex)
  {
    seg := [0x91];
    seg := seg + [ToU8(|symName|)];
    for k := 0 to |symName|
      invariant seg == [0x91, ToU8(|symName|)] + symName[..k]
    {
      seg := seg + [symName[k]];
    }
    assert symName[..|symName|] == symName;
    if |symName| % 2 == 1 {
      seg := seg + [0x00];
    }
    assert seg == NameSegment(symName);
    if arrayIndex >= 0 {
      if arrayIndex <= 0xFF {
        seg := seg + [0x28];
        seg := seg + [ToU8(arrayIndex)];
      } else {
        seg := seg + [0x29];
        seg := seg + [0x00];
        seg := seg + LE16(ToU16(arrayIndex));
      }
    }
  }

  // Whatever text goes in, what comes out fills whole 16-bit words, so halving the size for the
  // path-length byte loses nothing.
  lemma SymbolicPathIsEven(tagName: bytes)
    ensures SymbolicPath(tagName).Ok? ==> |SymbolicPath(tagName).value| % 2 == 0
  {
  }

  // ---- reading symbolic segments back ----

  function DecodeName(b: bytes): Option<(bytes, bytes)> {
    if |b| < 2 || b[0] != 0x91 then None
    else
      var n: int := b[1];
      if 2 + n + n % 2 > |b| then None else Some((b[2..2 + n], b[2 + n + n % 2..]))
  }

  function DecodeElement(b: bytes): (Option<nat>, bytes) {
    if |b| >= 2 && b[0] == 0x28 then (Some(b[1] as int), b[2..])
    else if |b| >= 4 && b[0] == 0x29 && b[1] == 0 then (Some(ReadU16(b, 2)), b[4..])
    else (None, b)
  }

  function DecodeComponent(b: bytes): (r: Option<(Component, bytes)>)
    ensures r.Some? ==> |r.value.1| < |b|
  {
    match DecodeName(b)
    case None => None
    case Some((name, afterName)) =>
      var (index, rest) := DecodeElement(afterName);
      Some((Component(name, index), rest))
  }

  function DecodeSymbolic(b: bytes): Option<seq<Component>>
    decreases |b|
  {
    if b == [] then Some([])
    else
      match DecodeComponent(b)
      case None => None
      case Some((c, rest)) =>
        match DecodeSymbolic(rest)
        case None => None
        case Some(more) => Some([c] + more)
  }

  predicate WellFormed(c: Component) {
    && 1 <= |c.name| <= 255
    && DOT !in c.name && LBRACKET !in c.name
    && (c.index.Some? ==> c.index.value <= 0xFFFF)
  }

  function PrintComponent(c: Component): bytes {
    c.name + (if c.index.Some? then Ascii("[") + Decimal(c.index.value) + Ascii("]") else [])
  }

  function Printed(cs: seq<Component>): (ps: seq<bytes>)
    ensures |ps| == |cs| && forall i | 0 <= i < |cs| :: ps[i] == PrintComponent(cs[i])
  {
    if cs == [] then [] else [PrintComponent(cs[0])] + Printed(cs[1..])
  }

  function PrintPath(cs: seq<Component>): bytes { Join(Printed(cs), Ascii(".")[0]) }

  function IndexOf(c: Component): int { if c.index.Some? then c.index.value else -1 }

  function ComponentSegment(c: Component): bytes { Segment(c.name, IndexOf(c)) }

  lemma PunctuationIs()
    ensures Ascii(".") == [DOT] && Ascii("[") == [LBRACKET] && Ascii("]") == [RBRACKET]
  {
  }

  // What is between the brackets is the index, as a number or as an exception; what comes after them is
  // dropped.
  lemma BracketsRead(name: bytes, index: bytes, after: bytes)
    requires LBRACKET !in name && RBRACKET !in index
    ensures ParsePart(name + Ascii("[") + index + Ascii("]") + after)
         == match Stoi(index) case Ok(i) => Ok((name, i)) case Err(e) => Err(e)
  {
    hide Stoi, Ascii, Find;
    PunctuationIs();
    var open, tail := |name|, [LBRACKET] + index;
    var p := name + [LBRACKET] + index + [RBRACKET] + after;
    assert p[..open] == name;
    FindIs(p, LBRACKET, open);
    assert p[open..] == tail + [RBRACKET] + after;
    assert (tail + [RBRACKET] + after)[..|tail|] == tail;
    FindIs(p[open..], RBRACKET, |tail|);
    assert p[open + 1..open + |tail|] == index;
  }

  // Without a bracket there is no index; one that is not closed cuts the name and gives none either.
  lemma NoIndexRead(name: bytes, text: bytes)
    requires LBRACKET !in name && RBRACKET !in text
    ensures ParsePart(name) == ParsePart(name + Ascii("[") + text) == Ok((name, -1))
  {
    hide Stoi, Ascii, Find;
    PunctuationIs();
    var open, tail := |name|, [LBRACKET] + text;
    var p := name + [LBRACKET] + text;
    assert p[..open] == name && p[open..] == tail;
    FindNone(name, LBRACKET);
    FindIs(p, LBRACKET, open);
    FindNone(tail, RBRACKET);
  }

  lemma ParsePrinted(c: Component)
    requires WellFormed(c)
    ensures PartSegment(PrintComponent(c)) == Ok(ComponentSegment(c))
    ensures DOT !in PrintComponent(c) && PrintComponent(c) != []
  {
    hide Stoi, Ascii, Segment, ParsePart, Find, Decimal;
    PunctuationIs();
    if c.index.Some? {
      var d := Decimal(c.index.value);
      DecimalHas(c.index.value, DOT);
      DecimalHas(c.index.value, RBRACKET);
      BracketsRead(c.name, d, []);
      StoiDecimal(c.index.value);
      assert PrintComponent(c) == c.name + Ascii("[") + d + Ascii("]") + [];
    } else {
      assert PrintComponent(c) == c.name;
      NoIndexRead(c.name, []);
    }
  }

  lemma SegmentsOfPrinted(cs: seq<Component>)
    requires forall c | c in cs :: WellFormed(c)
    ensures SymbolicPath(PrintPath(cs)) == Ok(Segments(cs))
  {
    var ps := Printed(cs);
    forall i | 0 <= i < |cs| ensures DOT !in ps[i] && ps[i] != [] { ParsePrinted(cs[i]); }
    PunctuationIs();
    SplitJoin(ps, DOT);
    PartsOfPrinted(cs);
  }

  function Segments(cs: seq<Component>): bytes {
    if cs == [] then [] else ComponentSegment(cs[0]) + Segments(cs[1..])
  }

  lemma {:induction false} PartsOfPrinted(cs: seq<Component>)
    requires forall c | c in cs :: WellFormed(c)
    ensures PartsSegments(Printed(cs)) == Ok(Segments(cs))
  {
    if cs != [] {
      ParsePrinted(cs[0]);
      assert Printed(cs)[1..] == Printed(cs[1..]);
      PartsOfPrinted(cs[1..]);
    }
  }

  lemma DecodeNameOf(name: bytes, rest: bytes)
    requires |name| <= 255
    ensures DecodeName(NameSegment(name) + rest) == Some((name, rest))
  {
    var b := NameSegment(name) + rest;
    var n := |name|;
    assert b[1] == n && b[2..2 + n] == name;
    assert b[2 + n + n % 2..] == rest;
  }

  lemma DecodeElementOf(c: Component, more: bytes)
    requires WellFormed(c)
    requires more != [] ==> more[0] == 0x91
    ensures DecodeElement(ElementSegment(IndexOf(c)) + more) == (c.index, more)
  {
    var i := IndexOf(c);
    var b := ElementSegment(i) + more;
    if i > 0xFF {
      assert b[2..4] == LE16(i);
      ReadU16OfLE16(b, 2, i);
      assert b[4..] == more;
    } else if i >= 0 {
      assert b[2..] == more;
    } else {
      assert b == more;
    }
  }

  lemma DecodeComponentOf(c: Component, more: bytes)
    requires WellFormed(c)
    requires more != [] ==> more[0] == 0x91
    ensures DecodeComponent(ComponentSegment(c) + more) == Some((c, more))
  {
    var e := ElementSegment(IndexOf(c));
    assert ComponentSegment(c) + more == NameSegment(c.name) + (e + more);
    DecodeNameOf(c.name, e + more);
    DecodeElementOf(c, more);
  }

  lemma {:induction false} DecodeSegments(cs: seq<Component>)
    requires forall c | c in cs :: WellFormed(c)
    ensures DecodeSymbolic(Segments(cs)) == Some(cs)
    ensures Segments(cs) != [] ==> Segments(cs)[0] == 0x91
  {
    if cs != [] {
      assert cs[0] in cs;
      DecodeSegments(cs[1..]);
      DecodeComponentOf(cs[0], Segments(cs[1..]));
      assert [cs[0]] + cs[1..] == cs;
    }
  }

  // Reading back the segments built for a printed tag path gives the path.
  lemma SymbolicRoundTrip(cs: seq<Component>)
    requires forall c | c in cs :: WellFormed(c)
    ensures SymbolicPath(PrintPath(cs)).Ok?
    ensures DecodeSymbolic(SymbolicPath(PrintPath(cs)).value) == Some(cs)
  {
    SegmentsOfPrinted(cs);
    DecodeSegments(cs);
  }

  // So no two tag paths share their text or their bytes.
  lemma SymbolicInjective(cs: seq<Component>, ds: seq<Component>)
    requires forall c | c in cs :: WellFormed(c)
    requires forall d | d in ds :: WellFormed(d)
    requires PrintPath(cs) == PrintPath(ds) || SymbolicPath(PrintPath(cs)) == SymbolicPath(PrintPath(ds))
    ensures cs == ds
  {
    SymbolicRoundTrip(cs);
    SymbolicRoundTrip(ds);
  }
}
