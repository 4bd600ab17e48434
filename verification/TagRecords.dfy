// The tag list: how the PLC encodes its symbol table, and how a page of it is read.
module TagRecords {
  import opened Bytes
  import opened Text

  // "Program:", "__", "Routine:", "Map:", "Task:" and "UDI:"
  const PROGRAM: bytes := [80, 114, 111, 103, 114, 97, 109, 58]
  const FILTERS: seq<bytes> := [
    [95, 95], [82, 111, 117, 116, 105, 110, 101, 58], [77, 97, 112, 58], [84, 97, 115, 107, 58], [85, 68, 73, 58]]

  // ---- the 16-bit type word ----

  function SymbolType(w: uint16): uint8 { w % 0x100 }
  function DataType(w: uint16): (t: uint16)
    ensures t < 4096
  {
    w % 0x1000
  }
  function ArrayDims(w: uint16): nat { w / 0x2000 % 4 }
  predicate IsStruct(w: uint16) { w / 0x8000 == 1 }

  // A type word put together from its parts: struct flag, dimensions, system flag, type.
  lemma TypeWordFields(isStruct: bool, dims: nat, system: bool, dataType: nat)
    requires dims < 4 && dataType < 0x1000
    ensures var w := (if isStruct then 0x8000 else 0) + 0x2000 * dims + (if system then 0x1000 else 0) + dataType;
            && 0 <= w < 0x1_0000
            && IsStruct(w) == isStruct && ArrayDims(w) == dims && DataType(w) == dataType
            && SymbolType(w) == dataType % 0x100
  {
  }

  datatype TagInfo = TagInfo(
    name: bytes, instanceId: uint16, symbolType: uint8, dataTypeValue: uint16,
    arrayDims: nat, isStruct: bool, arraySize: uint16)

  predicate IsFilteredTag(name: bytes) {
    ContainsAny(name, FILTERS)
  }

  // ---- which names are meant ----

  // Names the user should not see have one of these somewhere.
  const GARBAGE: seq<string> := ["__", "Routine:", "Map:", "Task:", "UDI:"]

  ghost predicate Holds(name: bytes, part: bytes) { exists a: bytes, b: bytes :: name == a + part + b }

  ghost predicate IsGarbage(name: bytes) { exists k | 0 <= k < |GARBAGE| :: Holds(name, Ascii(GARBAGE[k])) }

  lemma ContainsExactlyWhen(s: bytes, sub: bytes)
    ensures Contains(s, sub) <==> Holds(s, sub)
  {
    if Contains(s, sub) {
      var i: nat :| i <= |s| && MatchAt(s, sub, i);
      assert s == s[..i] + sub + s[i + |sub|..];
    }
    if Holds(s, sub) {
      var a: bytes, b: bytes :| s == a + sub + b;
      assert MatchAt(s, sub, |a|);
    }
  }

  // The filter finds exactly those.
  lemma FilteredExactlyWhen(name: bytes)
    ensures IsFilteredTag(name) <==> IsGarbage(name)
  {
    hide Contains, Holds;
    FiltersAre();
    forall k | 0 <= k < 5 ensures Contains(name, FILTERS[k]) <==> Holds(name, Ascii(GARBAGE[k])) {
      ContainsExactlyWhen(name, FILTERS[k]);
    }
    AnyOfFive(name, FILTERS);
  }

  lemma FiltersAre()
    ensures |FILTERS| == |GARBAGE| == 5 && forall k | 0 <= k < 5 :: FILTERS[k] == Ascii(GARBAGE[k])
  {
    assert Ascii("__") == [95, 95];
    assert Ascii("Routine:") == [82, 111, 117, 116, 105, 110, 101, 58];
    assert Ascii("Map:") == [77, 97, 112, 58];
    assert Ascii("Task:") == [84, 97, 115, 107, 58];
    assert Ascii("UDI:") == [85, 68, 73, 58];
  }

  lemma AnyOfFive(s: bytes, subs: seq<bytes>)
    requires |subs| == 5
    ensures ContainsAny(s, subs) <==> exists k | 0 <= k < 5 :: Contains(s, subs[k])
  {
    hide Contains;
    var a, b, c, d := subs[1..], subs[1..][1..], subs[1..][1..][1..], subs[1..][1..][1..][1..];
    assert ContainsAny(s, d) <==> Contains(s, subs[4]);
    assert ContainsAny(s, c) <==> Contains(s, subs[3]) || Contains(s, subs[4]);
    assert ContainsAny(s, b) <==> Contains(s, subs[2]) || ContainsAny(s, c);
    assert ContainsAny(s, a) <==> Contains(s, subs[1]) || ContainsAny(s, b);
  }

  // A name that begins with "Program:".
  ghost predicate NamesProgram(name: bytes) { exists rest: bytes :: name == Ascii("Program:") + rest }

  // The tag itself, unless it is one the user should not see.
  function Shown(tag: TagInfo): seq<TagInfo> { if IsFilteredTag(tag.name) then [] else [tag] }

  // A controller tag whose name starts with "Program:" names a program.
  function Announced(program: bytes, name: bytes): seq<bytes> {
    if program == [] && PROGRAM <= name then [name] else []
  }

  // ---- the PLC's side ----

  // One row of the symbol table. `dims` is the 12-byte array dimension attribute.
  type ShortText = t: bytes | |t| < 0x1_0000
  type Dims = d: bytes | |d| == 12 witness [0, 0, 0, 0, 0, 0, 0, 0, 0, 0, 0, 0]
  datatype TagRecord = TagRecord(id: uint32, name: ShortText, typeWord: uint16, dims: Dims)

  function EncodeRecord(r: TagRecord): (b: bytes)
    ensures |b| == |r.name| + 20
  {
    LE32(r.id) + LE16(|r.name|) + r.name + LE16(r.typeWord) + r.dims
  }

  function EncodeRecords(rs: seq<TagRecord>): bytes {
    if rs == [] then [] else EncodeRecord(rs[0]) + EncodeRecords(rs[1..])
  }

  // The tag a row stands for, named within its program when it has one.
  function QualifiedName(program: bytes, name: bytes): bytes {
    if program == [] then name else program + [DOT] + name
  }

  function TagOf(program: bytes, r: TagRecord): TagInfo {
    TagInfo(QualifiedName(program, r.name), ToU16(r.id), SymbolType(r.typeWord), DataType(r.typeWord),
            ArrayDims(r.typeWord), IsStruct(r.typeWord), if ArrayDims(r.typeWord) > 0 then ReadU16(r.dims, 0) else 0)
  }

  // The rows the user gets to see, in table order.
  function Visible(program: bytes, rs: seq<TagRecord>): seq<TagInfo> {
    if rs == [] then []
    else Shown(TagOf(program, rs[0])) + Visible(program, rs[1..])
  }

  // The program names among the controller's rows; hidden rows count too.
  function Programs(program: bytes, rs: seq<TagRecord>): seq<bytes> {
    if rs == [] then []
    else Announced(program, rs[0].name) + Programs(program, rs[1..])
  }

  // ---- the client's side ----

  // What the parser makes of the bytes at `pos`: nothing, a record cut short, or a whole record.
  datatype Entry = End | Cut(id: uint16) | Whole(tag: TagInfo, shortName: bytes, size: nat)

  function EntryAt(data: bytes, pos: nat, program: bytes): (e: Entry)
    ensures e.Whole? ==> e.size >= 20
  {
    if pos + 6 >= |data| then End
    else
      var id := ReadU16(data, pos);
      var n := ReadU16(data, pos + 4);
      if pos + 6 + n + 2 > |data| then Cut(id)
      else
        var name := data[pos + 6..pos + 6 + n];
        var w := ReadU16(data, pos + 6 + n);
        var size := if ArrayDims(w) > 0 && pos + 6 + n + 4 <= |data| then ReadU16(data, pos + 6 + n + 2) else 0;
        Whole(TagInfo(QualifiedName(program, name), id, SymbolType(w), DataType(w), ArrayDims(w), IsStruct(w), size),
              name, n + 20)
  }

  // Tags and program names found so far, and the id of the last record looked at.
  datatype Parsed = Parsed(tags: seq<TagInfo>, programs: seq<bytes>, last: uint16)

  function Note(p: Parsed, e: Entry, program: bytes): Parsed
    requires e.Whole?
  {
    Parsed(p.tags + Shown(e.tag), p.programs + Announced(program, e.shortName), e.tag.instanceId)
  }

  function ParsePacket(data: bytes, pos: nat, program: bytes, soFar: Parsed): Parsed
    decreases |data| - pos
  {
    match EntryAt(data, pos, program)
    case End => soFar
    case Cut(id) => soFar.(last := id)
    case Whole(tag, name, size) => ParsePacket(data, pos + size, program, Note(soFar, Whole(tag, name, size), program))
  }

  lemma RecordFields(data: bytes, pos: nat, r: TagRecord, more: bytes)
    requires pos <= |data|
    requires data[pos..] == EncodeRecord(r) + more
    ensures var n := |r.name|;
            && pos + n + 20 <= |data|
            && ReadU16(data, pos) == ToU16(r.id) && ReadU16(data, pos + 4) == n
            && data[pos + 6..pos + 6 + n] == r.name
            && ReadU16(data, pos + 6 + n) == r.typeWord && ReadU16(data, pos + 8 + n) == ReadU16(r.dims, 0)
            && data[pos + n + 20..] == more
  {
  }

  lemma EntryAtRecord(data: bytes, pos: nat, program: bytes, r: TagRecord, more: bytes)
    requires pos <= |data|
    requires data[pos..] == EncodeRecord(r) + more
    ensures EntryAt(data, pos, program) == Whole(TagOf(program, r), r.name, |r.name| + 20)
    ensures pos + |r.name| + 20 <= |data| && data[pos + |r.name| + 20..] == more
  {
    hide ReadU16, EncodeRecord, ArrayDims, QualifiedName;
    RecordFields(data, pos, r, more);
  }

  lemma EntryAtEnd(data: bytes, pos: nat, program: bytes)
    requires |data| <= pos
    ensures EntryAt(data, pos, program) == End
  {
  }

  function After(soFar: Parsed, program: bytes, r: TagRecord): Parsed {
    Parsed(soFar.tags + Shown(TagOf(program, r)), soFar.programs + Announced(program, r.name), ToU16(r.id))
  }

  lemma ParseRecord(data: bytes, pos: nat, program: bytes, r: TagRecord, more: bytes, soFar: Parsed)
    requires pos <= |data|
    requires data[pos..] == EncodeRecord(r) + more
    ensures pos + |r.name| + 20 <= |data| && data[pos + |r.name| + 20..] == more
    ensures ParsePacket(data, pos, program, soFar)
         == ParsePacket(data, pos + |r.name| + 20, program, After(soFar, program, r))
  {
    hide EntryAt, EncodeRecord, Shown, Announced;
    EntryAtRecord(data, pos, program, r, more);
  }

  function AfterAll(soFar: Parsed, program: bytes, rs: seq<TagRecord>): Parsed {
    Parsed(soFar.tags + Visible(program, rs), soFar.programs + Programs(program, rs),
           if rs == [] then soFar.last else ToU16(rs[|rs| - 1].id))
  }

  lemma {:induction false} ParseRecords(data: bytes, pos: nat, program: bytes, rs: seq<TagRecord>, more: bytes,
                                        soFar: Parsed)
    requires pos <= |data| && data[pos..] == EncodeRecords(rs) + more
    ensures var end := pos + |EncodeRecords(rs)|;
            && end <= |data| && data[end..] == more
            && ParsePacket(data, pos, program, soFar) == ParsePacket(data, end, program, AfterAll(soFar, program, rs))
    decreases |rs|
  {
    hide ParsePacket, EncodeRecord, TagOf, Shown, Announced;
    if rs == [] {
      assert soFar.tags + [] == soFar.tags && soFar.programs + [] == soFar.programs;
    } else {
      var r := rs[0];
      Regroup(EncodeRecord(r), EncodeRecords(rs[1..]), more);
      ParseRecord(data, pos, program, r, EncodeRecords(rs[1..]) + more, soFar);
      ParseRecords(data, pos + |r.name| + 20, program, rs[1..], more, After(soFar, program, r));
      Regroup(soFar.tags, Shown(TagOf(program, r)), Visible(program, rs[1..]));
      Regroup(soFar.programs, Announced(program, r.name), Programs(program, rs[1..]));
    }
  }

  // Parsing a page of whole records yields exactly their visible tags and program names, in order,
  // and the id of the last one.
  lemma ParseEncoded(data: bytes, pos: nat, program: bytes, rs: seq<TagRecord>, soFar: Parsed)
    requires pos <= |data| && data[pos..] == EncodeRecords(rs)
    ensures ParsePacket(data, pos, program, soFar)
         == Parsed(soFar.tags + Visible(program, rs), soFar.programs + Programs(program, rs),
                   if rs == [] then soFar.last else ToU16(rs[|rs| - 1].id))
  {
    hide EntryAt, EncodeRecords, Visible, Programs;
    assert EncodeRecords(rs) + [] == EncodeRecords(rs);
    ParseRecords(data, pos, program, rs, [], soFar);
    EntryAtEnd(data, pos + |EncodeRecords(rs)|, program);
  }

  // A page that ends in the middle of a record: with the type word missing only its id is noted, and a
  // record of which not even a byte of the name is there goes unnoticed. One that lacks dimensions counts,
  // as an array without a size when they are missing altogether.
  lemma ParseCut(data: bytes, pos: nat, program: bytes, rs: seq<TagRecord>, r: TagRecord, part: bytes, soFar: Parsed)
    requires pos <= |data| && data[pos..] == EncodeRecords(rs) + part && part < EncodeRecord(r)
    ensures var (n, whole) := (|r.name|, AfterAll(soFar, program, rs));
            ParsePacket(data, pos, program, soFar)
            == if |part| <= 6 then whole
               else if |part| < n + 8 then whole.(last := ToU16(r.id))
               else if |part| < n + 10 then After(whole, program, r.(dims := NO_DIMS))
               else After(whole, program, r)
  {
    hide EncodeRecords, EncodeRecord, QualifiedName, Shown, Announced, AfterAll;
    ParseRecords(data, pos, program, rs, part, soFar);
    var end := pos + |EncodeRecords(rs)|;
    CutEntry(data, end, program, r, part);
    if |part| >= |r.name| + 8 { EntryAtEnd(data, end + |r.name| + 20, program); }
  }

  const NO_DIMS: Dims := [0, 0, 0, 0, 0, 0, 0, 0, 0, 0, 0, 0]

  lemma CutEntry(data: bytes, pos: nat, program: bytes, r: TagRecord, part: bytes)
    requires pos <= |data| && data[pos..] == part && part < EncodeRecord(r)
    ensures var n := |r.name|;
            EntryAt(data, pos, program)
            == if |part| <= 6 then End
               else if |part| < n + 8 then Cut(ToU16(r.id))
               else Whole(TagOf(program, if |part| < n + 10 then r.(dims := NO_DIMS) else r), r.name, n + 20)
  {
    hide ReadU16, EncodeRecord, ArrayDims, QualifiedName;
    var (all, n) := (EncodeRecord(r), |r.name|);
    assert all + [] == all;
    RecordFields(all, 0, r, []);
    assert part == all[..|part|];
    ReadInPart(data, pos, all, |part|);
    assert |part| >= n + 8 ==> data[pos + 6..pos + 6 + n] == all[6..6 + n];
    NoDims();
  }

  lemma ReadInPart(data: bytes, pos: nat, all: bytes, n: nat)
    requires pos <= |data| && n <= |all| && data[pos..] == all[..n]
    ensures forall k: nat | k + 2 <= n :: pos + k + 2 <= |data| && ReadU16(data, pos + k) == ReadU16(all, k)
  {
  }

  lemma NoDims()
    ensures ReadU16(NO_DIMS, 0) == 0
  {
  }

  // What a row means: its parts are those of the type word, and the size of an array is its first dimension.
  lemma TagMeans(program: bytes, id: uint32, name: ShortText, isStruct: bool, dims: nat, system: bool, dataType: nat,
                 first: uint32, second: uint32, third: uint32)
    requires dims < 4 && dataType < 0x1000
    ensures var w := (if isStruct then 0x8000 else 0) + 0x2000 * dims + (if system then 0x1000 else 0) + dataType;
            TagOf(program, TagRecord(id, name, w, LE32(first) + LE32(second) + LE32(third)))
            == TagInfo(QualifiedName(program, name), id % 0x1_0000, dataType % 0x100, dataType, dims, isStruct,
                       if dims > 0 then first % 0x1_0000 else 0)
  {
    hide SymbolType, DataType, ArrayDims, IsStruct;
    TypeWordFields(isStruct, dims, system, dataType);
  }

  // Programs are announced by the controller's rows whose name says so.
  lemma {:induction false} ProgramsAreNamed(rs: seq<TagRecord>, name: bytes)
    ensures name in Programs([], rs) <==> NamesProgram(name) && exists i | 0 <= i < |rs| :: rs[i].name == name
  {
    hide NamesProgram;
    if rs != [] {
      ProgramsAreNamed(rs[1..], name);
      AnnouncedWhen(rs[0].name);
      if i :| 0 <= i < |rs| && rs[i].name == name {
        assert i > 0 ==> rs[1..][i - 1].name == name;
      }
      if i :| 0 <= i < |rs[1..]| && rs[1..][i].name == name {
        assert rs[i + 1].name == name;
      }
    }
  }

  lemma AnnouncedWhen(name: bytes)
    ensures NamesProgram(name) ==> Announced([], name) == [name]
    ensures !NamesProgram(name) ==> Announced([], name) == []
  {
    assert PROGRAM == Ascii("Program:");
    if PROGRAM <= name { assert name == Ascii("Program:") + name[|PROGRAM|..]; }
  }

  lemma {:induction false} VisibleAppend(program: bytes, a: seq<TagRecord>, b: seq<TagRecord>)
    ensures Visible(program, a + b) == Visible(program, a) + Visible(program, b)
    ensures Programs(program, a + b) == Programs(program, a) + Programs(program, b)
  {
    if a == [] {
      assert a + b == b;
    } else {
      assert (a + b)[1..] == a[1..] + b;
      VisibleAppend(program, a[1..], b);
      Regroup(Shown(TagOf(program, a[0])), Visible(program, a[1..]), Visible(program, b));
      Regroup(Announced(program, a[0].name), Programs(program, a[1..]), Programs(program, b));
    }
  }
}
