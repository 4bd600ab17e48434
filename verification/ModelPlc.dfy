// A PLC made from tables: it reads the browser's requests from their bytes and answers with pages and
// fragments cut wherever it likes. Everything assumed of a PLC elsewhere holds of it.
module ModelPlc {
  import opened Bytes
  import opened CipPath
  import opened Enip
  import opened TagRecords
  import opened Templates
  import opened Browsing = TagBrowser
  import Discovery
  import Expand
  import LeafPaths

  // ---- reading the requests ----

  datatype Query =
    | ListTags(program: bytes, cursor: uint16)
    | TypeAttributes(id: uint16)
    | TypeBytes(id: uint16, offset: uint32, length: uint16)
    | Strange

  const SYMBOL_CLASS: uint16 := 0x6B

  // Name, type and size of a symbol; the four attributes of a template.
  const SYMBOL_ATTRIBUTES: bytes := [3, 0, 1, 0, 2, 0, 8, 0]
  const TEMPLATE_ATTRIBUTES: bytes := [4, 0, 4, 0, 3, 0, 2, 0, 1, 0]

  // A program's name in front of the symbol class, if there is one, and the instance to start from.
  function ListOf(path: bytes): Option<(bytes, uint16)> {
    var (program, rest) := match DecodeName(path) case None => ([], path) case Some(named) => named;
    match DecodeClassInstance(rest)
    case Some((c, instance, after)) => if c == SYMBOL_CLASS && after == [] then Some((program, instance)) else None
    case None => None
  }

  function TemplateOf(path: bytes): Option<uint16> {
    match DecodeClassInstance(path)
    case Some((c, instance, after)) => if c == 0x6C && after == [] then Some(instance) else None
    case None => None
  }

  // Service, path length in words, path, data.
  function Understand(msg: bytes): Query {
    if |msg| < 2 || |msg| < 2 + 2 * (msg[1] as int) then Strange
    else
      var size := 2 + 2 * (msg[1] as int);
      Meaning(msg[0], msg[2..size], msg[size..])
  }

  function Meaning(service: uint8, path: bytes, data: bytes): Query {
    if service == 0x55 && data == SYMBOL_ATTRIBUTES && ListOf(path).Some? then
      ListTags(ListOf(path).value.0, ListOf(path).value.1)
    else if TemplateOf(path).None? then Strange
    else if service == 0x03 && data == TEMPLATE_ATTRIBUTES then TypeAttributes(TemplateOf(path).value)
    else if service == 0x4C && |data| == 6 then TypeBytes(TemplateOf(path).value, ReadU32(data, 0), ReadU16(data, 4))
    else Strange
  }

  lemma UnderstandParts(service: uint8, path: bytes, data: bytes)
    requires |path| % 2 == 0 && |path| <= 510
    ensures Understand([service, ToU8(|path| / 2)] + path + data) == Meaning(service, path, data)
  {
    hide Meaning;
    var msg := [service, ToU8(|path| / 2)] + path + data;
    assert msg[2..2 + |path|] == path && msg[2 + |path|..] == data;
  }

  // The PLC reads program and cursor out of a tag list request...
  lemma ListUnderstood(program: bytes, cursor: uint16)
    requires |program| <= 255
    ensures Understand(TagListRequest(program, cursor)) == ListTags(program, cursor)
  {
    var tail := LogicalPath(SYMBOL_CLASS, cursor);
    ListRequestParts(program, cursor);
    hide TagListRequest, ProgramSegment, LogicalPath, DecodeName, DecodeClassInstance, ListOf, Understand;
    ClassInstanceRoundTrip(SYMBOL_CLASS, cursor, []);
    assert tail + [] == tail;
    ListPathRead(program, cursor, tail);
    UnderstandParts(0x55, ProgramSegment(program) + tail, SYMBOL_ATTRIBUTES);
  }

  lemma ListRequestParts(program: bytes, cursor: uint16)
    ensures var path := ProgramSegment(program) + LogicalPath(SYMBOL_CLASS, cursor);
            TagListRequest(program, cursor) == [0x55, ToU8(|path| / 2)] + path + SYMBOL_ATTRIBUTES
  {
    assert LE16(3) + LE16(1) + LE16(2) + LE16(8) == SYMBOL_ATTRIBUTES;
    hide LE16, ProgramSegment;
    assert LogicalPath(SYMBOL_CLASS, cursor) == [0x20, 0x6B] + InstanceSegment(cursor);
    Regroup(ProgramSegment(program), [0x20, 0x6B], InstanceSegment(cursor));
  }

  lemma ListPathRead(program: bytes, cursor: uint16, tail: bytes)
    requires |program| <= 255 && tail == LogicalPath(SYMBOL_CLASS, cursor)
    requires DecodeClassInstance(tail) == Some((SYMBOL_CLASS, cursor, []))
    ensures ListOf(ProgramSegment(program) + tail) == Some((program, cursor))
    ensures |ProgramSegment(program)| % 2 == 0 && |ProgramSegment(program)| <= 258
  {
    hide DecodeClassInstance;
    if program == [] {
      assert [] + tail == tail;
      assert tail[0] == 0x20;
    } else {
      assert ProgramSegment(program) == NameSegment(program);
      DecodeNameOf(program, tail);
    }
  }

  // ...the type's number out of an attribute request...
  lemma AttributesUnderstood(id: uint16)
    ensures Understand(AttributesRequest(id)) == TypeAttributes(id)
  {
    var path := LogicalPath(TEMPLATE_CLASS, id);
    hide LE16, LogicalPath, DecodeClassInstance, Understand;
    AttributeList();
    ClassInstanceRoundTrip(TEMPLATE_CLASS, id, []);
    assert path + [] == path;
    UnderstandParts(0x03, path, TEMPLATE_ATTRIBUTES);
    assert [0x03, ToU8(|path| / 2)] + path + TEMPLATE_ATTRIBUTES == AttributesRequest(id);
  }

  lemma AttributeList()
    ensures LE16(4) + LE16(4) + LE16(3) + LE16(2) + LE16(1) == TEMPLATE_ATTRIBUTES
  {
  }

  // ...and type, offset and length, cut to their widths, out of a read.
  lemma ReadUnderstood(id: uint16, offset: nat, remaining: nat)
    ensures Understand(ReadRequest(id, offset, remaining)) == TypeBytes(id, offset % 0x1_0000_0000, ToU16(remaining))
  {
    var path := LogicalPath(TEMPLATE_CLASS, id);
    var data := LE32(offset % 0x1_0000_0000) + LE16(ToU16(remaining));
    assert data[0..4] == LE32(offset % 0x1_0000_0000) && data[4..6] == LE16(ToU16(remaining));
    hide LE16, LE32, ReadU16, ReadU32, LogicalPath, DecodeClassInstance;
    ReadU32OfLE32(data, 0, offset % 0x1_0000_0000);
    ReadU16OfLE16(data, 4, ToU16(remaining));
    ClassInstanceRoundTrip(TEMPLATE_CLASS, id, []);
    assert path + [] == path;
    UnderstandParts(0x4C, path, data);
  }

  // ---- answering ----

  // The tables, and how the PLC cuts: rows per page, whether a page that happens to be the last one
  // still promises more, and bytes per fragment.
  datatype Plc = Plc(
    controller: seq<TagRecord>, programs: map<bytes, seq<TagRecord>>, types: map<uint16, Served>,
    rows: (bytes, nat) -> nat, late: (bytes, nat) -> bool, part: (uint16, nat, nat) -> nat)

  function Cut(wish: nat, limit: nat): (n: nat)
    ensures limit > 0 ==> 1 <= n <= limit
    ensures limit == 0 ==> n == 0
  {
    Min(Max(1, wish), limit)
  }

  datatype Content = Content(status: uint8, data: bytes)

  function Page(table: seq<TagRecord>, cursor: nat, wish: nat, late: bool): Content {
    var rest := table[Passed(table, cursor)..];
    var n := Cut(wish, |rest|);
    Content(if n < |rest| || (late && rest != []) then 6 else 0, EncodeRecords(rest[..n]))
  }

  function Fragment(image: bytes, offset: nat, asked: nat, wish: nat): Content {
    if offset + asked > |image| then Content(0x05, [])
    else
      var n := Cut(wish, asked);
      Content(if n < asked then 6 else 0, image[offset..offset + n])
  }

  function ImageOf(s: Served): bytes { Image(s.t, s.pad) + s.beyond }

  function ContentFor(plc: Plc, q: Query): Content {
    match q
    case ListTags(program, cursor) =>
      if program == [] then Page(plc.controller, cursor, plc.rows(program, cursor), plc.late(program, cursor))
      else if program in plc.programs then
        Page(plc.programs[program], cursor, plc.rows(program, cursor), plc.late(program, cursor))
      else Content(0x05, [])
    case TypeAttributes(id) =>
      if id in plc.types then
        var s := plc.types[id];
        Content(0, AttributeData(s.defSize, s.memberSize, ToU16(|s.t.members|), s.handle))
      else Content(0x05, [])
    case TypeBytes(id, offset, length) =>
      if id in plc.types then Fragment(ImageOf(plc.types[id]), offset, length, plc.part(id, offset, length))
      else Content(0x05, [])
    case Strange => Content(0x08, [])
  }

  function Answer(plc: Plc, msg: bytes): Result<bytes> {
    var c := ContentFor(plc, Understand(msg));
    Ok(Reply(0xD5, c.status, [], c.data))
  }

  function PeerOf(plc: Plc): Peer { msg => Answer(plc, msg) }

  // Tables fit for a PLC: ascending ids, names that fit a segment, and types whose images have the size
  // announced, whose needed part can be read, and whose member types are there.
  ghost predicate Consistent(plc: Plc) {
    && ValidTable(plc.controller)
    && (forall name | name in Programs([], plc.controller) ::
          name != [] && |name| <= 255 && name in plc.programs && ValidTable(plc.programs[name]))
    && (forall id | id in plc.types ::
          SizesFit(plc.types[id]) && Known(id, plc.types[id].t).nested <= plc.types.Keys)
  }

  ghost predicate SizesFit(s: Served) {
    && ValidType(s.t) && 6 <= s.defSize < 0x2000_0000 && |Image(s.t, s.pad)| == 4 * s.defSize - 20
    && Needed(s.t) <= ToU16(4 * s.defSize - 20) && |ImageOf(s)| < 0x1_0000_0000
  }

  lemma AnswerRead(plc: Plc, msg: bytes)
    ensures PeerOf(plc)(msg).Ok?
    ensures var c, cip := ContentFor(plc, Understand(msg)), CipStatus(PeerOf(plc)(msg).value);
            cip.status == c.status && cip.data == c.data
  {
    hide ContentFor, Understand, CipStatus, Reply;
    var c := ContentFor(plc, Understand(msg));
    ReplyRoundTrip(0xD5, c.status, [], c.data);
  }

  // ---- it is a PLC as assumed ----

  lemma GoodPages(plc: Plc, program: bytes, table: seq<TagRecord>)
    requires ValidTable(table) && |program| <= 255
    requires if program == [] then table == plc.controller
             else program in plc.programs && plc.programs[program] == table
    ensures ServesTable(PeerOf(plc), program, table) && AlwaysAnswers(PeerOf(plc), program)
  {
    hide PeerOf, TagListRequest, Understand, CipStatus, EncodeRecords, Passed;
    forall cursor: uint16
      ensures GoodPage(PeerOf(plc)(TagListRequest(program, cursor)), table, cursor)
      ensures Answered(PeerOf(plc)(TagListRequest(program, cursor)))
    {
      AnswerRead(plc, TagListRequest(program, cursor));
      ListUnderstood(program, cursor);
      PageIsGood(PeerOf(plc)(TagListRequest(program, cursor)), table, cursor,
                 plc.rows(program, cursor), plc.late(program, cursor));
    }
  }

  lemma PageIsGood(reply: Result<bytes>, table: seq<TagRecord>, cursor: nat, wish: nat, late: bool)
    requires reply.Ok?
    requires var (c, cip) := (Page(table, cursor, wish, late), CipStatus(reply.value));
             cip.status == c.status && cip.data == c.data
    ensures GoodPage(reply, table, cursor) && Answered(reply)
  {
    hide CipStatus, EncodeRecords, Passed;
    var rest := table[Passed(table, cursor)..];
    assert rest[..|rest|] == rest;
  }

  lemma ServesEverything(plc: Plc)
    requires Consistent(plc)
    ensures ServesAll(PeerOf(plc), plc.controller, plc.programs) && AnswersAll(PeerOf(plc), plc.controller)
  {
    hide PeerOf, ServesTable, AlwaysAnswers, Programs, ValidTable;
    GoodPages(plc, [], plc.controller);
    forall name | name in Programs([], plc.controller)
      ensures ServesTable(PeerOf(plc), name, plc.programs[name]) && AlwaysAnswers(PeerOf(plc), name)
    {
      GoodPages(plc, name, plc.programs[name]);
    }
  }

  lemma ReadsContent(plc: Plc, id: uint16, offset: nat, remaining: nat)
    ensures var r := ReadReply(PeerOf(plc), id, offset, remaining);
            && r.Ok?
            && var c := ContentFor(plc, TypeBytes(id, offset % 0x1_0000_0000, ToU16(remaining)));
               r.value.status == c.status && r.value.data == c.data
  {
    hide PeerOf, ReadRequest, Understand, CipStatus, ContentFor;
    AnswerRead(plc, ReadRequest(id, offset, remaining));
    ReadUnderstood(id, offset, remaining);
  }

  lemma AlwaysProgresses(plc: Plc)
    ensures Progressive(PeerOf(plc))
  {
    hide PeerOf, ReadReply, ImageOf;
    forall id: uint16, offset: nat, remaining: nat
      ensures var r := ReadReply(PeerOf(plc), id, offset, remaining);
              r.Ok? && r.value.status == 6 ==> r.value.data != []
    {
      ReadsContent(plc, id, offset, remaining);
    }
  }

  lemma ServesImages(plc: Plc, id: uint16)
    requires id in plc.types && |ImageOf(plc.types[id])| < 0x1_0000_0000
    ensures ServesImage(PeerOf(plc), id, ImageOf(plc.types[id]))
  {
    hide PeerOf, ReadReply, ImageOf;
    var image := ImageOf(plc.types[id]);
    forall offset: nat, asked: uint16 | offset + asked <= |image|
      ensures var r := ReadReply(PeerOf(plc), id, offset, asked);
              && r.Ok?
              && ((r.value.status == 0 && r.value.data == image[offset..offset + asked])
                  || (r.value.status == 6 && 0 < |r.value.data| < asked
                      && r.value.data == image[offset..offset + |r.value.data|]))
    {
      ReadsContent(plc, id, offset, asked);
    }
  }

  lemma ServesTypes(plc: Plc)
    requires Consistent(plc)
    ensures Discovery.ServesAllTypes(PeerOf(plc), plc.types)
  {
    hide PeerOf, ServesImage, Known, ValidTable, Programs, CipStatus, AttributesRequest, Image, Needed, AttributeData;
    hide Understand;
    forall id | id in plc.types ensures ServesType(PeerOf(plc), id, plc.types[id]) {
      ServesImages(plc, id);
      AnswerRead(plc, AttributesRequest(id));
      AttributesUnderstood(id);
    }
  }

  // ---- discovery on any such PLC ----

  ghost predicate LowIds(table: seq<TagRecord>) { forall i | 0 <= i < |table| :: table[i].id < 0xFFFF }

  // With ids below 65535 no scope is asked for for ever.
  lemma EndsEverywhere(plc: Plc)
    requires Consistent(plc) && LowIds(plc.controller)
    requires forall name | name in Programs([], plc.controller) :: LowIds(plc.programs[name])
    ensures EndsAll(PeerOf(plc), plc.controller)
  {
    hide PeerOf, ServesTable, AlwaysAnswers, Programs, ValidTable, Ends, LowIds;
    ServesEverything(plc);
    EndsOne(PeerOf(plc), [], plc.controller);
    forall name | name in Programs([], plc.controller) ensures Ends(PeerOf(plc), name) {
      EndsOne(PeerOf(plc), name, plc.programs[name]);
    }
  }

  lemma EndsOne(peer: Peer, program: bytes, table: seq<TagRecord>)
    requires ServesTable(peer, program, table) && LowIds(table)
    ensures Ends(peer, program)
  {
    hide ServesTable, Ends;
    LowIdsEnd(peer, program, table);
  }

  // Whatever the tables and however they are cut into pages and fragments, as long as no scope is asked
  // for for ever: browsing returns all visible tags, and expanding a struct tag lists exactly its numeric leaves.
  method Discover(plc: Plc, withPrograms: bool, ghost rank: Expand.Ranking)
    returns (r: Result<seq<TagInfo>>, browser: TagBrowser)
    requires Consistent(plc) && EndsAll(PeerOf(plc), plc.controller)
    requires LeafPaths.TypesOk(Discovery.TypesOf(plc.types), rank)
    requires StructTypes(AllTags(plc.controller, plc.programs, withPrograms)) <= plc.types.Keys
    ensures r == Ok(AllTags(plc.controller, plc.programs, withPrograms))
    ensures Expand.Acyclic(browser.udts, rank)
    ensures forall tag | tag in r.value && tag.isStruct ::
      exists ps ::
        && LeafPaths.ListsLeaves(Discovery.TypesOf(plc.types), tag.dataTypeValue, ps)
        && Expand.ExpandTag(browser.udts, rank, tag)
           == LeafPaths.Entries(Discovery.TypesOf(plc.types), tag.name, tag.dataTypeValue, ps)
  {
    hide PeerOf, ServesAll, AnswersAll, EndsAll, Progressive, Resolved, Consistent, AllTags, Programs;
    hide Expand.Acyclic, Expand.ExpandTag, LeafPaths.TypesOk, LeafPaths.ListsLeaves, LeafPaths.Entries;
    hide Discovery.ServesAllTypes, Discovery.NothingMissing, Discovery.TypesOf;
    ServesEverything(plc);
    ServesTypes(plc);
    AlwaysProgresses(plc);
    browser := new TagBrowser();
    r := browser.Browse(PeerOf(plc), withPrograms, plc.controller, plc.programs);
    Discovery.Expandable(PeerOf(plc), r.value, plc.types, rank, browser.udts);
    forall tag | tag in r.value && tag.isStruct
      ensures exists ps ::
        && LeafPaths.ListsLeaves(Discovery.TypesOf(plc.types), tag.dataTypeValue, ps)
        && Expand.ExpandTag(browser.udts, rank, tag)
           == LeafPaths.Entries(Discovery.TypesOf(plc.types), tag.name, tag.dataTypeValue, ps)
    {
      Discovery.ResolveThenExpand(PeerOf(plc), r.value, plc.types, rank, browser.udts, tag);
    }
  }
}
