// Struct type templates: how the PLC serves them and how the client fetches and decodes one.
module Templates {
  import opened Bytes
  import opened Text
  import opened CipPath
  import opened Enip
  import TagRecords

  // The answer to each unconnected request; an error stands for an exception on the way.
  type Peer = bytes -> Result<bytes>

  const TEMPLATE_CLASS: uint16 := 0x6C

  // ---- definitions the client keeps ----

  datatype UdtField = UdtField(
    name: bytes, symbolType: uint8, dataTypeValue: uint16, arrayDims: nat,
    isStruct: bool, arraySize: uint16, isInternal: bool)

  datatype UdtDef = UdtDef(typeId: uint16, name: bytes, fields: seq<UdtField>)

  type UdtTable = map<uint16, UdtDef>

  // Field names starting with "__" are the PLC's own.
  predicate IsInternalName(name: bytes) { |name| >= 2 && name[0] == UNDERSCORE && name[1] == UNDERSCORE }

  function FieldOf(name: bytes, info: uint16, typeWord: uint16): (f: UdtField)
    ensures f.dataTypeValue < 4096
  {
    UdtField(name, TagRecords.SymbolType(typeWord), TagRecords.DataType(typeWord), TagRecords.ArrayDims(typeWord),
             TagRecords.IsStruct(typeWord), if TagRecords.ArrayDims(typeWord) > 0 then info else 0,
             IsInternalName(name))
  }

  // What a field means: its parts are those of the type word, its info word is the size of an array, and the
  // PLC's own are the names with two underscores in front.
  lemma FieldMeans(name: bytes, info: uint16, isStruct: bool, dims: nat, system: bool, dataType: nat)
    requires dims < 4 && dataType < 0x1000
    ensures var w := (if isStruct then 0x8000 else 0) + 0x2000 * dims + (if system then 0x1000 else 0) + dataType;
            FieldOf(name, info, w)
            == UdtField(name, dataType % 0x100, dataType, dims, isStruct, if dims > 0 then info else 0,
                        Ascii("__") <= name)
  {
    hide TagRecords.SymbolType, TagRecords.DataType, TagRecords.ArrayDims, TagRecords.IsStruct;
    TagRecords.TypeWordFields(isStruct, dims, system, dataType);
    assert Ascii("__") == [95, 95];
    assert |name| >= 2 ==> name[..2] == [name[0], name[1]];
  }

  // ---- requests ----

  function AttributesRequest(instance: uint16): bytes {
    var path := LogicalPath(TEMPLATE_CLASS, instance);
    [0x03, ToU8(|path| / 2)] + path + LE16(4) + LE16(4) + LE16(3) + LE16(2) + LE16(1)
  }

  method GetTemplateAttribute(peer: Peer, instance: uint16) returns (r: Result<bytes>)
    ensures r == peer(AttributesRequest(instance))
  {
    var path := BuildCipPath(TEMPLATE_CLASS, instance);
    var request: bytes := [0x03];
    request := request + [ToU8(|path| / 2)];
    request := request + path;
    request := request + LE16(4);
    request := request + LE16(4);
    request := request + LE16(3);
    request := request + LE16(2);
    request := request + LE16(1);
    assert request == AttributesRequest(instance);
    r := peer(request);
  }

  function ReadRequest(instance: uint16, offset: nat, remaining: nat): bytes {
    var path := LogicalPath(TEMPLATE_CLASS, instance);
    [0x4C, ToU8(|path| / 2)] + path + (LE32(offset % 0x1_0000_0000) + LE16(ToU16(remaining)))
  }

  // ---- fragmented read ----

  function ReadReply(peer: Peer, instance: uint16, offset: nat, remaining: nat): Result<CipResponse> {
    match peer(ReadRequest(instance, offset, remaining))
    case Err(e) => Err(e)
    case Ok(resp) => Ok(CipStatus(resp))
  }

  // A fragment that says more is to come carries at least one byte.
  ghost predicate Progressive(peer: Peer) {
    forall instance: uint16, offset: nat, remaining: nat ::
      var r := ReadReply(peer, instance, offset, remaining);
      r.Ok? && r.value.status == 6 ==> r.value.data != []
  }

  ghost function ReadTemplate(peer: Peer, instance: uint16, dataLen: int, got: bytes): Result<bytes>
    requires Progressive(peer)
    decreases dataLen - |got|
  {
    if dataLen - |got| <= 0 then Ok(got)
    else match ReadReply(peer, instance, |got|, dataLen - |got|)
      case Err(e) => Err(e)
      case Ok(cip) =>
        if cip.status == 0 then Ok(got + cip.data)
        else if cip.status == 6 then ReadTemplate(peer, instance, dataLen, got + cip.data)
        else Ok(got)
  }

  method GetTemplate(peer: Peer, instance: uint16, dataLen: int) returns (r: Result<bytes>)
    requires Progressive(peer)
    ensures r == ReadTemplate(peer, instance, dataLen, [])
  {
    var fullData: bytes := [];
    var partOffset := 0;
    var remaining := dataLen;
    while remaining > 0
      invariant partOffset == |fullData| && remaining == dataLen - partOffset
      invariant ReadTemplate(peer, instance, dataLen, []) == ReadTemplate(peer, instance, dataLen, fullData)
      decreases remaining
    {
      var path := BuildCipPath(TEMPLATE_CLASS, instance);
      var reqData := LE32(partOffset % 0x1_0000_0000);
      reqData := reqData + LE16(ToU16(remaining));
      var request: bytes := [0x4C];
      request := request + [ToU8(|path| / 2)];
      request := request + path;
      request := request + reqData;
      assert request == ReadRequest(instance, partOffset, remaining);
      var response := peer(request);
      if response.Err? {
        return Err(response.error);
      }
      var cip := ParseCipStatus(response.value);
      assert ReadReply(peer, instance, partOffset, remaining) == Ok(cip);
      if cip.status != 0 && cip.status != 6 {
        break;
      }
      fullData := fullData + cip.data;
      partOffset := |fullData|;
      remaining := dataLen - partOffset;
      if cip.status == 0 {
        break;
      }
    }
    r := Ok(fullData);
  }

  // Replies that carry these parts, one after the other, each saying that more is to come.
  ghost predicate Arrive(peer: Peer, instance: uint16, n: int, got: bytes, parts: seq<bytes>)
    decreases |parts|
  {
    parts == [] ||
      (&& |got| < n
       && var r := ReadReply(peer, instance, |got|, n - |got|);
          && r.Ok? && r.value.status == 6 && r.value.data == parts[0]
          && Arrive(peer, instance, n, got + parts[0], parts[1..]))
  }

  lemma {:induction false} ReadOn(peer: Peer, instance: uint16, n: int, got: bytes, parts: seq<bytes>)
    requires Progressive(peer) && Arrive(peer, instance, n, got, parts)
    ensures ReadTemplate(peer, instance, n, got) == ReadTemplate(peer, instance, n, got + Flatten(parts))
    decreases |parts|
  {
    hide ReadReply;
    if parts == [] {
      assert got + [] == got;
    } else {
      ReadOn(peer, instance, n, got + parts[0], parts[1..]);
      Regroup(got, parts[0], Flatten(parts[1..]));
    }
  }

  // What becomes of a read after any parts that have arrived: it ends when they are enough; a lost request
  // is an exception, a refusal keeps what is there, and the last part completes it.
  lemma ReadEnds(peer: Peer, instance: uint16, n: int, parts: seq<bytes>)
    requires Progressive(peer) && Arrive(peer, instance, n, [], parts)
    ensures var (got, read) := (Flatten(parts), ReadTemplate(peer, instance, n, []));
            if n <= |got| then read == Ok(got)
            else
              var next := ReadReply(peer, instance, |got|, n - |got|);
              if next.Err? then read == Err(next.error)
              else if next.value.status == 0 then read == Ok(got + next.value.data)
              else next.value.status != 6 ==> read == Ok(got)
  {
    hide ReadReply;
    ReadOn(peer, instance, n, [], parts);
    assert [] + Flatten(parts) == Flatten(parts);
  }

  // The PLC holds `image` for this template and answers every read inside it with consecutive
  // bytes: all that was asked for, or a non-empty part of it and the more-to-come status. The length
  // field of the request has 16 bits.
  ghost predicate ServesImage(peer: Peer, instance: uint16, image: bytes) {
    forall offset: nat, asked: uint16 | offset + asked <= |image| ::
      var r := ReadReply(peer, instance, offset, asked);
      && r.Ok?
      && ((r.value.status == 0 && r.value.data == image[offset..offset + asked])
          || (r.value.status == 6 && 0 < |r.value.data| < asked
              && r.value.data == image[offset..offset + |r.value.data|]))
  }

  // A length of 65536 or more is cut to 16 bits on the way.
  lemma AskedIsCut(peer: Peer, instance: uint16, offset: nat, remaining: nat)
    ensures ReadReply(peer, instance, offset, remaining) == ReadReply(peer, instance, offset, ToU16(remaining))
  {
    hide LogicalPath, CipStatus;
  }

  // What is left to read shrinks in the 16-bit field just as it does outside.
  lemma LeftToRead(dataLen: nat, got: nat)
    requires got <= ToU16(dataLen)
    ensures dataLen != got ==> dataLen > got && ToU16(dataLen - got) == ToU16(dataLen) - got
    ensures dataLen == got ==> ToU16(dataLen) == got
  {
  }

  // However the reads are cut into fragments, the result is a prefix of the image, as long as what was
  // asked for modulo 65536.
  lemma {:induction false} FragmentsAddUp(peer: Peer, instance: uint16, image: bytes, dataLen: nat, got: bytes)
    requires Progressive(peer) && ServesImage(peer, instance, image)
    requires ToU16(dataLen) <= |image| && got <= image && |got| <= ToU16(dataLen)
    requires dataLen < 0x1_0000 || |got| < ToU16(dataLen) || got == []
    ensures ReadTemplate(peer, instance, dataLen, got) == Ok(image[..ToU16(dataLen)])
    decreases dataLen - |got|
  {
    hide ReadReply, ToU16;
    var size := ToU16(dataLen);
    LeftToRead(dataLen, |got|);
    if dataLen == |got| {
      assert got == image[..size];
    } else {
      AskedIsCut(peer, instance, |got|, dataLen - |got|);
      var cip := ReadReply(peer, instance, |got|, size - |got|).value;
      if cip.status == 0 {
        assert got + cip.data == image[..size];
      } else {
        assert got + cip.data == image[..|got| + |cip.data|];
        FragmentsAddUp(peer, instance, image, dataLen, got + cip.data);
      }
    }
  }

  // So the requested prefix arrives exactly when its length fits the 16-bit field.
  lemma PrefixExactlyWhen(peer: Peer, instance: uint16, image: bytes, dataLen: nat)
    requires Progressive(peer) && ServesImage(peer, instance, image) && dataLen <= |image|
    ensures ReadTemplate(peer, instance, dataLen, []) == Ok(image[..dataLen]) <==> dataLen < 0x1_0000
  {
    hide ReadReply, ReadTemplate, ServesImage;
    FragmentsAddUp(peer, instance, image, dataLen, []);
  }

  // ---- attributes ----

  // Definition size (attribute 4) and member count (attribute 2) from the four attribute entries.
  function Attributes(d: bytes, pos: nat, a: nat, size: uint32, count: uint16): (uint32, uint16)
    requires a <= 4
    decreases 4 - a
  {
    if a == 4 || pos + 4 > |d| then (size, count)
    else
      var id := ReadU16(d, pos);
      var p := pos + 4;
      if ReadU16(d, pos + 2) != 0 then Attributes(d, p, a + 1, size, count)
      else if id == 4 && p + 4 <= |d| then Attributes(d, p + 4, a + 1, ReadU32(d, p), count)
      else if id == 2 && p + 2 <= |d| then Attributes(d, p + 2, a + 1, size, ReadU16(d, p))
      else if (id == 3 || id == 1) && p + 2 <= |d| then Attributes(d, p + 2, a + 1, size, count)
      else Attributes(d, p, a + 1, size, count)
  }

  method ParseAttributes(d: bytes) returns (objDefSize: uint32, memberCount: uint16)
    requires |d| >= 2
    ensures (objDefSize, memberCount) == Attributes(d, 2, 0, 0, 0)
  {
    objDefSize, memberCount := 0, 0;
    var pos := 2;
    var a := 0;
    while a < 4 && pos + 4 <= |d|
      invariant 0 <= a <= 4 && 0 <= pos
      invariant Attributes(d, 2, 0, 0, 0) == Attributes(d, pos, a, objDefSize, memberCount)
      decreases 4 - a
    {
      var attrId := ReadU16(d, pos);
      var attrStatus := ReadU16(d, pos + 2);
      pos := pos + 4;
      a := a + 1;
      if attrStatus != 0 {
        continue;
      }
      if attrId == 4 {
        if pos + 4 <= |d| {
          objDefSize := ReadU32(d, pos);
          pos := pos + 4;
        }
      } else if attrId == 3 {
        if pos + 2 <= |d| {
          pos := pos + 2;
        }
      } else if attrId == 2 {
        if pos + 2 <= |d| {
          memberCount := ReadU16(d, pos);
          pos := pos + 2;
        }
      } else if attrId == 1 {
        if pos + 2 <= |d| {
          pos := pos + 2;
        }
      }
    }
  }

  // The entries of an attribute reply, a refused one among them.
  datatype AttributeEntry =
    | DefinitionSize(n: uint32)
    | MemberSize(size: uint16)
    | MemberCount(count: uint16)
    | Handle(crc: uint16)
    | RefusedEntry(id: uint16, status: uint16)

  function EncodeEntry(e: AttributeEntry): (b: bytes)
    ensures |b| >= 4
  {
    match e
    case DefinitionSize(n) => LE16(4) + LE16(0) + LE32(n)
    case MemberSize(size) => LE16(3) + LE16(0) + LE16(size)
    case MemberCount(count) => LE16(2) + LE16(0) + LE16(count)
    case Handle(crc) => LE16(1) + LE16(0) + LE16(crc)
    case RefusedEntry(id, status) => LE16(id) + LE16(status)
  }

  function EncodeEntries(es: seq<AttributeEntry>): bytes {
    if es == [] then [] else EncodeEntry(es[0]) + EncodeEntries(es[1..])
  }

  // Size and count among the entries; the last of each kind counts.
  function EntriesMean(es: seq<AttributeEntry>, size: uint32, count: uint16): (uint32, uint16) {
    if es == [] then (size, count)
    else match es[0]
      case DefinitionSize(n) => EntriesMean(es[1..], n, count)
      case MemberCount(c) => EntriesMean(es[1..], size, c)
      case _ => EntriesMean(es[1..], size, count)
  }

  predicate ProperEntry(e: AttributeEntry) { e.RefusedEntry? ==> e.status != 0 }

  lemma HeaderRead(d: bytes, pos: nat, id: uint16, status: uint16, more: bytes)
    requires pos <= |d| && d[pos..] == LE16(id) + LE16(status) + more
    ensures pos + 4 <= |d| && ReadU16(d, pos) == id && ReadU16(d, pos + 2) == status && d[pos + 4..] == more
  {
  }

  lemma ValueRead(d: bytes, pos: nat, v: uint16, more: bytes)
    requires pos <= |d| && d[pos..] == LE16(v) + more
    ensures pos + 2 <= |d| && ReadU16(d, pos) == v && d[pos + 2..] == more
  {
  }

  lemma LongValueRead(d: bytes, pos: nat, v: uint32, more: bytes)
    requires pos <= |d| && d[pos..] == LE32(v) + more
    ensures pos + 4 <= |d| && ReadU32(d, pos) == v && d[pos + 4..] == more
  {
    hide LE32, ReadU32;
    assert d[pos..pos + 4] == LE32(v);
    ReadU32OfLE32(d, pos, v);
  }

  lemma EntryRead(d: bytes, pos: nat, e: AttributeEntry, more: bytes, a: int, size: uint32, count: uint16)
    requires pos <= |d| && d[pos..] == EncodeEntry(e) + more && 0 <= a < 4 && ProperEntry(e)
    ensures var next := pos + |EncodeEntry(e)|;
            && next <= |d| && d[next..] == more
            && Attributes(d, pos, a, size, count)
               == (match e
                   case DefinitionSize(n) => Attributes(d, next, a + 1, n, count)
                   case MemberCount(c) => Attributes(d, next, a + 1, size, c)
                   case _ => Attributes(d, next, a + 1, size, count))
  {
    hide ReadU16, ReadU32, LE16, LE32;
    match e
    case DefinitionSize(n) =>
      Regroup(LE16(4) + LE16(0), LE32(n), more);
      HeaderRead(d, pos, 4, 0, LE32(n) + more);
      LongValueRead(d, pos + 4, n, more);
    case MemberSize(m) =>
      Regroup(LE16(3) + LE16(0), LE16(m), more);
      HeaderRead(d, pos, 3, 0, LE16(m) + more);
      ValueRead(d, pos + 4, m, more);
    case MemberCount(c) =>
      Regroup(LE16(2) + LE16(0), LE16(c), more);
      HeaderRead(d, pos, 2, 0, LE16(c) + more);
      ValueRead(d, pos + 4, c, more);
    case Handle(crc) =>
      Regroup(LE16(1) + LE16(0), LE16(crc), more);
      HeaderRead(d, pos, 1, 0, LE16(crc) + more);
      ValueRead(d, pos + 4, crc, more);
    case RefusedEntry(id, status) =>
      HeaderRead(d, pos, id, status, more);
  }

  // The four entries are read in any order, those refused skipped, up to a reply that ends early.
  lemma {:induction false} AttributesOfEntries(d: bytes, pos: nat, es: seq<AttributeEntry>, more: bytes, a: int,
                                               size: uint32, count: uint16)
    requires pos <= |d| && d[pos..] == EncodeEntries(es) + more && forall k | 0 <= k < |es| :: ProperEntry(es[k])
    requires 0 <= a && a + |es| <= 4 && (a + |es| < 4 ==> |more| < 4)
    ensures Attributes(d, pos, a, size, count) == EntriesMean(es, size, count)
    decreases |es|
  {
    hide EncodeEntry;
    if es != [] {
      var (next, rest) := (pos + |EncodeEntry(es[0])|, es[1..]);
      Regroup(EncodeEntry(es[0]), EncodeEntries(rest), more);
      EntryRead(d, pos, es[0], EncodeEntries(rest) + more, a, size, count);
      match es[0] {
        case DefinitionSize(n) => AttributesOfEntries(d, next, rest, more, a + 1, n, count);
        case MemberCount(c) => AttributesOfEntries(d, next, rest, more, a + 1, size, c);
        case _ => AttributesOfEntries(d, next, rest, more, a + 1, size, count);
      }
    }
  }

  // 4 * size - 23 rounded up to a multiple of 4, in 32-bit arithmetic.
  function TemplateSize(objDefSize: uint32): int {
    var words := AsInt32(objDefSize * 4 % 0x1_0000_0000) - 23;
    (words + 3) / 4 * 4
  }

  // That is four times the size less 20, as long as it fits 32 bits with a sign; what overflows into the
  // sign asks for nothing.
  lemma TemplateSizeIs(objDefSize: uint32)
    ensures objDefSize < 0x2000_0000 ==> TemplateSize(objDefSize) == 4 * objDefSize - 20
    ensures 0x2000_0000 <= objDefSize < 0x4000_0000 ==>
      TemplateSize(objDefSize) == 4 * objDefSize - 20 - 0x1_0000_0000 < 0
    ensures objDefSize >= 0x4000_0000 ==> TemplateSize(objDefSize) == TemplateSize(objDefSize % 0x4000_0000)
  {
    var quarter, rest := objDefSize / 0x4000_0000, objDefSize % 0x4000_0000;
    assert objDefSize * 4 == quarter * 0x1_0000_0000 + rest * 4;
    assert objDefSize * 4 % 0x1_0000_0000 == rest * 4;
  }

  // ---- decoding ----

  // The non-empty NUL-terminated strings of a name table; the last one need not be terminated.
  function NonEmpty(pieces: seq<bytes>): seq<bytes> {
    if pieces == [] then []
    else (if pieces[0] == [] then [] else [pieces[0]]) + NonEmpty(pieces[1..])
  }

  function Names(s: bytes): seq<bytes> { NonEmpty(Split(s, 0)) }

  lemma NamesStep(current: bytes, rest: bytes)
    requires 0 !in current
    ensures Names(current + [0] + rest) == (if current == [] then [] else [current]) + Names(rest)
  {
    var s := current + [0] + rest;
    assert s[..|current|] == current && s[|current| + 1..] == rest;
    FindIs(s, 0, |current|);
  }

  lemma NamesEnd(current: bytes)
    requires 0 !in current
    ensures Names(current) == if current == [] then [] else [current]
  {
    if current != [] {
      FindNone(current, 0);
      assert Split(current, 0) == [current] && [current][1..] == [];
      assert NonEmpty([current]) == [current] + NonEmpty([]);
    }
  }

  method SplitNames(data: bytes, start: nat) returns (names: seq<bytes>)
    requires start <= |data|
    ensures names == Names(data[start..])
  {
    hide Names;
    names := [];
    var current: bytes := [];
    assert [] + data[start..] == data[start..];
    for i := start to |data|
      invariant 0 !in current
      invariant Names(data[start..]) == names + Names(current + data[i..])
    {
      assert current + data[i..] == current + [data[i]] + data[i + 1..];
      if data[i] == 0x00 {
        NamesStep(current, data[i + 1..]);
        if current != [] {
          names := names + [current];
        }
        current := [];
        assert [] + data[i + 1..] == data[i + 1..];
      } else {
        current := current + [data[i]];
      }
    }
    assert current + data[|data|..] == current;
    NamesEnd(current);
    if current != [] {
      names := names + [current];
    }
  }

  // The first name is the type's own, cut at a semicolon.
  function TypeName(names: seq<bytes>): bytes {
    if names == [] then [] else names[0][..Find(names[0], SEMICOLON)]
  }

  // Members i, i + 1, ... as long as both a definition and a name are there.
  function FieldsFrom(data: bytes, names: seq<bytes>, count: nat, i: nat): seq<UdtField>
    requires count * 8 <= |data|
    decreases count - i
  {
    if i >= count || i + 1 >= |names| then []
    else [FieldOf(names[i + 1], ReadU16(data, i * 8), ReadU16(data, i * 8 + 2))] + FieldsFrom(data, names, count, i + 1)
  }

  function Listed(fields: seq<UdtField>): seq<UdtField> {
    if fields == [] then []
    else Kept(fields[0]) + Listed(fields[1..])
  }

  function Kept(f: UdtField): seq<UdtField> { if f.isInternal then [] else [f] }

  function StructType(f: UdtField): set<uint16> { if f.isStruct then {f.dataTypeValue} else {} }

  // The types of all struct members, the internal ones included.
  function Nested(fields: seq<UdtField>): (s: set<uint16>) {
    if fields == [] then {} else StructType(fields[0]) + Nested(fields[1..])
  }

  lemma {:induction false} NestedIsSmall(data: bytes, names: seq<bytes>, count: nat, i: nat)
    requires count * 8 <= |data|
    ensures forall n | n in Nested(FieldsFrom(data, names, count, i)) :: n < 4096
    decreases count - i
  {
    if i < count && i + 1 < |names| {
      var fields := FieldsFrom(data, names, count, i);
      assert fields[1..] == FieldsFrom(data, names, count, i + 1);
      NestedIsSmall(data, names, count, i + 1);
    }
  }

  datatype Fetched = Fetched(udt: UdtDef, nested: set<uint16>)

  function Decode(typeId: uint16, count: nat, data: bytes): Fetched
    requires count * 8 <= |data|
  {
    var names := Names(data[count * 8..]);
    var fields := FieldsFrom(data, names, count, 0);
    Fetched(UdtDef(typeId, TypeName(names), Listed(fields)), Nested(fields))
  }

  lemma FieldsEnd(data: bytes, names: seq<bytes>, count: nat)
    requires count * 8 <= |data|
    ensures forall i: nat | i >= count || i + 1 >= |names| ::
      Listed(FieldsFrom(data, names, count, i)) == [] && Nested(FieldsFrom(data, names, count, i)) == {}
  {
  }

  lemma FieldsStep(data: bytes, names: seq<bytes>, count: nat, i: nat)
    requires count * 8 <= |data| && i < count && i + 1 < |names|
    ensures var field := FieldOf(names[i + 1], ReadU16(data, i * 8), ReadU16(data, i * 8 + 2));
            var more := FieldsFrom(data, names, count, i + 1);
            && Listed(FieldsFrom(data, names, count, i)) == Kept(field) + Listed(more)
            && Nested(FieldsFrom(data, names, count, i)) == StructType(field) + Nested(more)
  {
  }

  // The member loop: the listed fields, and the struct types met on the way.
  method GatherFields(data: bytes, names: seq<bytes>, memberCount: uint16)
    returns (fields: seq<UdtField>, nested: set<uint16>)
    requires memberCount * 8 <= |data|
    ensures fields == Listed(FieldsFrom(data, names, memberCount, 0))
    ensures nested == Nested(FieldsFrom(data, names, memberCount, 0))
  {
    hide FieldOf, ReadU16, FieldsFrom, Listed, Nested;
    FieldsEnd(data, names, memberCount);
    fields, nested := [], {};
    var i := 0;
    ghost var all := FieldsFrom(data, names, memberCount, 0);
    while i < memberCount && i + 1 < |names|
      invariant 0 <= i <= memberCount
      invariant Listed(all) == fields + Listed(FieldsFrom(data, names, memberCount, i))
      invariant Nested(all) == nested + Nested(FieldsFrom(data, names, memberCount, i))
    {
      var field := FieldOf(names[i + 1], ReadU16(data, i * 8), ReadU16(data, i * 8 + 2));
      FieldsStep(data, names, memberCount, i);
      Regroup(fields, Kept(field), Listed(FieldsFrom(data, names, memberCount, i + 1)));
      if field.isStruct {
        nested := nested + {field.dataTypeValue};
      }
      if !field.isInternal {
        fields := fields + [field];
      }
      i := i + 1;
    }
  }

  method ParseTemplate(typeId: uint16, memberCount: uint16, data: bytes) returns (r: Fetched)
    requires memberCount * 8 <= |data|
    ensures r == Decode(typeId, memberCount, data)
  {
    hide Names;
    var names := SplitNames(data, memberCount * 8);
    var name: bytes := [];
    if names != [] {
      name := names[0][..Find(names[0], SEMICOLON)];
    }
    var fields, nested := GatherFields(data, names, memberCount);
    r := Fetched(UdtDef(typeId, name, fields), nested);
  }

  // ---- the PLC's own types ----

  datatype PlcMember = PlcMember(name: bytes, info: uint16, typeWord: uint16, offset: uint32)
  datatype PlcType = PlcType(name: bytes, members: seq<PlcMember>)

  predicate ValidName(name: bytes) { name != [] && 0 !in name }

  predicate AllNamed(ms: seq<PlcMember>) {
    ms == [] || (ValidName(ms[0].name) && AllNamed(ms[1..]))
  }

  predicate ValidType(t: PlcType) {
    ValidName(t.name) && 0 < |t.members| < 0x1_0000 && AllNamed(t.members)
  }

  function Definitions(ms: seq<PlcMember>): (b: bytes)
    ensures |b| == 8 * |ms|
  {
    if ms == [] then []
    else LE16(ms[0].info) + LE16(ms[0].typeWord) + LE32(ms[0].offset) + Definitions(ms[1..])
  }

  function MemberNames(ms: seq<PlcMember>): (ns: seq<bytes>)
    ensures |ns| == |ms|
  {
    if ms == [] then [] else [ms[0].name] + MemberNames(ms[1..])
  }

  function NameTable(ns: seq<bytes>): bytes {
    if ns == [] then [] else ns[0] + [0] + NameTable(ns[1..])
  }

  // Member definitions, then all names, then padding.
  function Image(t: PlcType, pad: nat): bytes {
    Definitions(t.members) + (NameTable([t.name] + MemberNames(t.members)) + Zeros(pad))
  }

  // All members as fields, in declaration order.
  function MembersAsFields(ms: seq<PlcMember>): (fs: seq<UdtField>)
    ensures |fs| == |ms|
  {
    if ms == [] then [] else [FieldOf(ms[0].name, ms[0].info, ms[0].typeWord)] + MembersAsFields(ms[1..])
  }

  // What the client should know about a type once it has been fetched.
  function Known(typeId: uint16, t: PlcType): Fetched {
    var fields := MembersAsFields(t.members);
    Fetched(UdtDef(typeId, t.name[..Find(t.name, Ascii(";")[0])], Listed(fields)), Nested(fields))
  }

  predicate AllValid(ns: seq<bytes>) { ns == [] || (ValidName(ns[0]) && AllValid(ns[1..])) }

  lemma {:induction false} NamesOfZeros(pad: nat)
    ensures Names(Zeros(pad)) == []
  {
    if pad > 0 {
      NamesStep([], Zeros(pad - 1));
      assert [] + [0] + Zeros(pad - 1) == Zeros(pad);
      NamesOfZeros(pad - 1);
    }
  }

  lemma {:induction false} NamesOfTable(ns: seq<bytes>, pad: nat)
    requires AllValid(ns)
    ensures Names(NameTable(ns) + Zeros(pad)) == ns
  {
    hide Names;
    if ns == [] {
      NamesOfZeros(pad);
      assert NameTable(ns) + Zeros(pad) == Zeros(pad);
    } else {
      var rest := NameTable(ns[1..]) + Zeros(pad);
      assert NameTable(ns) + Zeros(pad) == ns[0] + [0] + rest;
      NamesStep(ns[0], rest);
      NamesOfTable(ns[1..], pad);
    }
  }

  lemma {:induction false} MemberNamesValid(ms: seq<PlcMember>)
    requires AllNamed(ms)
    ensures AllValid(MemberNames(ms))
  {
    if ms != [] { MemberNamesValid(ms[1..]); }
  }

  lemma DefinitionAt(data: bytes, at: nat, m: PlcMember, more: bytes)
    requires at <= |data| && data[at..] == LE16(m.info) + LE16(m.typeWord) + LE32(m.offset) + more
    ensures at + 8 <= |data| && ReadU16(data, at) == m.info && ReadU16(data, at + 2) == m.typeWord
    ensures data[at + 8..] == more
  {
  }

  lemma {:induction false} FieldsOfDefinitions(
    data: bytes, names: seq<bytes>, count: nat, i: nat, ms: seq<PlcMember>, tail: bytes)
    requires i + |ms| == count && count * 8 <= |data| && |names| == count + 1
    requires names[i + 1..] == MemberNames(ms)
    requires data[i * 8..] == Definitions(ms) + tail
    ensures FieldsFrom(data, names, count, i) == MembersAsFields(ms)
    decreases |ms|
  {
    hide FieldOf, ReadU16, LE16, LE32;
    if ms != [] {
      var m := ms[0];
      var rest := Definitions(ms[1..]) + tail;
      assert Definitions(ms) + tail == LE16(m.info) + LE16(m.typeWord) + LE32(m.offset) + rest;
      DefinitionAt(data, i * 8, m, rest);
      assert names[i + 1] == names[i + 1..][0] == m.name;
      assert names[i + 2..] == names[i + 1..][1..] == MemberNames(ms[1..]);
      FieldsOfDefinitions(data, names, count, i + 1, ms[1..], tail);
    }
  }

  lemma SemicolonIs()
    ensures Ascii(";")[0] == SEMICOLON
  {
  }

  // Decoding the image of a type recovers its name and its members in order.
  lemma DecodeImage(typeId: uint16, t: PlcType, pad: nat)
    requires ValidType(t)
    ensures |t.members| * 8 <= |Image(t, pad)|
    ensures Decode(typeId, |t.members|, Image(t, pad)) == Known(typeId, t)
  {
    hide Names, Find, Ascii, Listed, Nested;
    SemicolonIs();
    var data, count := Image(t, pad), |t.members|;
    var ns := [t.name] + MemberNames(t.members);
    var tail := NameTable(ns) + Zeros(pad);
    assert data[count * 8..] == tail;
    assert ns[1..] == MemberNames(t.members);
    MemberNamesValid(t.members);
    NamesOfTable(ns, pad);
    assert data[0 * 8..] == data;
    FieldsOfDefinitions(data, ns, count, 0, t.members, tail);
  }

  // ---- fetching one type ----

  ghost function Fetch(peer: Peer, typeId: uint16): Option<Fetched>
    requires Progressive(peer)
  {
    match peer(AttributesRequest(typeId))
    case Err(_) => None
    case Ok(resp) =>
      var cip := CipStatus(resp);
      if cip.status != 0 || |cip.data| < 20 then None
      else
        var (size, count) := Attributes(cip.data, 2, 0, 0, 0);
        if size == 0 || count == 0 then None
        else match ReadTemplate(peer, typeId, TemplateSize(size), [])
          case Err(_) => None
          case Ok(data) => if data == [] || |data| < count * 8 then None else Some(Decode(typeId, count, data))
  }

  // ---- when a type cannot be fetched, told from the replies ----

  // The attribute request is lost, refused, or answered with too little.
  predicate NoAttributes(peer: Peer, typeId: uint16) {
    match peer(AttributesRequest(typeId))
    case Err(_) => true
    case Ok(resp) => CipStatus(resp).status != 0 || |CipStatus(resp).data| < 20
  }

  // The first template read is lost or refused, or it is the last one and brings too few bytes for the
  // member definitions; or the same becomes of the reads that follow it.
  ghost predicate NoTemplate(peer: Peer, typeId: uint16, size: uint32, count: uint16)
    requires Progressive(peer)
  {
    TemplateSize(size) <= 0 || NoFragments(peer, typeId, TemplateSize(size), 8 * count as int)
  }

  ghost predicate NoFragments(peer: Peer, typeId: uint16, n: nat, needed: nat)
    requires Progressive(peer)
  {
    var first := ReadReply(peer, typeId, 0, n);
    || first.Err?
    || (first.value.status != 0 && first.value.status != 6)
    || (first.value.status == 0 && |first.value.data| < needed)
    || (first.value.status == 6 && TooShort(ReadTemplate(peer, typeId, n, first.value.data), needed))
  }

  predicate TooShort(read: Result<bytes>, needed: nat) { read.Err? || |read.value| < needed }

  ghost predicate Unfetchable(peer: Peer, typeId: uint16)
    requires Progressive(peer)
  {
    NoAttributes(peer, typeId) ||
      (var (size, count) := Attributes(CipStatus(peer(AttributesRequest(typeId)).value).data, 2, 0, 0, 0);
       size == 0 || count == 0 || NoTemplate(peer, typeId, size, count))
  }

  // A fetch fails in exactly these cases.
  lemma FetchFailsExactlyWhen(peer: Peer, typeId: uint16)
    requires Progressive(peer)
    ensures Fetch(peer, typeId).None? <==> Unfetchable(peer, typeId)
  {
    hide CipStatus, AttributesRequest, Attributes, TemplateSize, Decode, ReadReply;
    if !NoAttributes(peer, typeId) {
      var (size, count) := Attributes(CipStatus(peer(AttributesRequest(typeId)).value).data, 2, 0, 0, 0);
      FirstRead(peer, typeId, TemplateSize(size));
    }
  }

  lemma FirstRead(peer: Peer, typeId: uint16, n: int)
    requires Progressive(peer)
    ensures n <= 0 ==> ReadTemplate(peer, typeId, n, []) == Ok([])
    ensures n > 0 ==>
      var (read, first) := (ReadTemplate(peer, typeId, n, []), ReadReply(peer, typeId, 0, n));
      && (first.Err? ==> read.Err?)
      && (first.Ok? ==>
           && (first.value.status == 0 ==> read == Ok(first.value.data))
           && (first.value.status == 6 ==> read == ReadTemplate(peer, typeId, n, first.value.data))
           && (first.value.status != 0 && first.value.status != 6 ==> read == Ok([])))
  {
    hide ReadReply;
    assert forall b: bytes :: [] + b == b;
  }

  // Member types are 12-bit.
  lemma FetchedTypesAreSmall(peer: Peer, typeId: uint16)
    requires Progressive(peer) && Fetch(peer, typeId).Some?
    ensures forall n | n in Fetch(peer, typeId).value.nested :: n < 4096
  {
    var cip := CipStatus(peer(AttributesRequest(typeId)).value);
    var (size, count) := Attributes(cip.data, 2, 0, 0, 0);
    var data := ReadTemplate(peer, typeId, TemplateSize(size), []).value;
    NestedIsSmall(data, Names(data[count * 8..]), count, 0);
  }

  // The body of the resolving loop: an exception or a malformed answer skips the type.
  method FetchType(peer: Peer, typeId: uint16) returns (r: Option<Fetched>)
    requires Progressive(peer)
    ensures r == Fetch(peer, typeId)
  {
    hide Decode, ReadTemplate, Attributes, CipStatus, AttributesRequest, TemplateSize;
    var attrResp := GetTemplateAttribute(peer, typeId);
    if attrResp.Err? {
      return None;
    }
    var attrCip := ParseCipStatus(attrResp.value);
    if attrCip.status != 0 || |attrCip.data| < 20 {
      return None;
    }
    var objDefSize, memberCount := ParseAttributes(attrCip.data);
    if objDefSize == 0 || memberCount == 0 {
      return None;
    }
    var tmplData := GetTemplate(peer, typeId, TemplateSize(objDefSize));
    if tmplData.Err? || tmplData.value == [] {
      return None;
    }
    if |tmplData.value| < memberCount as int * 8 {
      return None;
    }
    var fetched := ParseTemplate(typeId, memberCount, tmplData.value);
    r := Some(fetched);
  }

  // ---- a PLC that serves a type ----

  // The reply to the attribute request: four (id, status, value) entries after their count.
  function AttributeData(defSize: uint32, memberSize: uint16, count: uint16, handle: uint16): bytes {
    LE16(4) + (LE16(4) + LE16(0) + LE32(defSize)) + (LE16(3) + LE16(0) + LE16(memberSize))
    + (LE16(2) + LE16(0) + LE16(count)) + (LE16(1) + LE16(0) + LE16(handle))
  }

  lemma AttributesOfData(defSize: uint32, memberSize: uint16, count: uint16, handle: uint16)
    ensures var d := AttributeData(defSize, memberSize, count, handle);
            |d| == 28 && Attributes(d, 2, 0, 0, 0) == (defSize, count)
  {
  }

  // How the PLC presents a type: its definition size in words, the padding of its image, and what
  // it holds beyond the part the client asks for.
  datatype Served = Served(t: PlcType, defSize: uint32, memberSize: uint16, handle: uint16, pad: nat, beyond: bytes)

  // What has to arrive of an image: the definitions and the names. The rest is padding.
  function Needed(t: PlcType): nat { |Definitions(t.members)| + |NameTable([t.name] + MemberNames(t.members))| }

  ghost predicate ServesType(peer: Peer, typeId: uint16, s: Served) {
    && ValidType(s.t)
    && 6 <= s.defSize < 0x2000_0000 && |Image(s.t, s.pad)| == 4 * s.defSize - 20
    && Needed(s.t) <= ToU16(4 * s.defSize - 20)
    && ServesImage(peer, typeId, Image(s.t, s.pad) + s.beyond)
    && peer(AttributesRequest(typeId)).Ok?
    && var cip := CipStatus(peer(AttributesRequest(typeId)).value);
       cip.status == 0 && cip.data == AttributeData(s.defSize, s.memberSize, |s.t.members|, s.handle)
  }

  lemma ImagePrefix(t: PlcType, pad: nat, beyond: bytes, size: nat)
    requires Needed(t) <= size <= |Image(t, pad)|
    ensures (Image(t, pad) + beyond)[..size] == Image(t, size - Needed(t))
  {
    hide NameTable, MemberNames, Definitions;
  }

  // From the PLC's type to the client's definition, through requests, fragments and decoding.
  lemma FetchServed(peer: Peer, typeId: uint16, s: Served)
    requires Progressive(peer) && ServesType(peer, typeId, s)
    ensures Fetch(peer, typeId) == Some(Known(typeId, s.t))
  {
    hide Decode, ReadTemplate, Attributes, CipStatus, AttributesRequest, TemplateSize, Known, AttributeData;
    hide Image, Needed, ServesImage, NameTable, MemberNames, Definitions;
    var image, size := Image(s.t, s.pad), ToU16(4 * s.defSize - 20);
    ImagePrefix(s.t, s.pad, s.beyond, size);
    DecodeImage(typeId, s.t, size - Needed(s.t));
    AttributesOfData(s.defSize, s.memberSize, |s.t.members|, s.handle);
    TemplateSizeIs(s.defSize);
    FragmentsAddUp(peer, typeId, image + s.beyond, 4 * s.defSize - 20, []);
  }
}
