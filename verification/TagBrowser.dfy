// The tag browser: paging through the PLC's symbol table and resolving struct types.
module TagBrowser {
  import opened Bytes
  import opened Text
  import opened Enip
  import opened TagRecords
  import opened Templates
  import CipPath

  // ---- the tag list request (service 0x55 on class 0x6B) ----

  function ProgramSegment(program: bytes): bytes {
    if program == [] then []
    else [0x91, ToU8(|program|)] + program + (if |program| % 2 == 1 then [0x00] else [])
  }

  function InstanceSegment(offset: uint16): bytes {
    if offset < 256 then [0x24, offset] else [0x25, 0x00] + LE16(offset)
  }

  function TagListRequest(program: bytes, offset: uint16): bytes {
    var path := ProgramSegment(program) + [0x20, 0x6B] + InstanceSegment(offset);
    [0x55, ToU8(|path| / 2)] + path + (LE16(3) + LE16(1) + LE16(2) + LE16(8))
  }

  method BuildListPath(program: bytes, offset: uint16) returns (path: bytes)
    ensures path == ProgramSegment(program) + [0x20, 0x6B] + InstanceSegment(offset)
  {
    path := [];
    if program != [] {
      path := path + [0x91];
      path := path + [ToU8(|program|)];
      path := path + program;
      if |program| % 2 == 1 {
        path := path + [0x00];
      }
    }
    assert path == ProgramSegment(program);
    assert LE16(0x6B20) == [0x20, 0x6B] && LE16(0x0025) == [0x25, 0x00];
    hide ProgramSegment, LE16;
    path := path + LE16(0x6B20);
    if offset < 256 {
      path := path + [0x24];
      path := path + [ToU8(offset)];
    } else {
      path := path + LE16(0x0025);
      path := path + LE16(offset);
    }
  }

  method BuildTagListRequest(program: bytes, offset: uint16) returns (request: bytes)
    ensures request == TagListRequest(program, offset)
  {
    hide ProgramSegment, InstanceSegment, LE16;
    var path := BuildListPath(program, offset);
    var attributes := LE16(3);
    attributes := attributes + LE16(1);
    attributes := attributes + LE16(2);
    attributes := attributes + LE16(8);
    request := [0x55];
    request := request + [ToU8(|path| / 2)];
    request := request + path;
    request := request + attributes;
  }

  // ---- a PLC that serves a symbol table ----

  // Instance ids ascend and fit the 16-bit cursor.
  ghost predicate ValidTable(table: seq<TagRecord>) {
    && (forall i | 0 <= i < |table| :: table[i].id < 0x1_0000)
    && (forall i, j | 0 <= i < j < |table| :: table[i].id < table[j].id)
  }

  // How many rows lie before the cursor.
  function Passed(table: seq<TagRecord>, cursor: nat): (k: nat)
    ensures k <= |table|
    ensures forall i | 0 <= i < k :: table[i].id < cursor
    ensures k < |table| ==> table[k].id >= cursor
  {
    if table == [] || table[0].id >= cursor then 0
    else
      var k := 1 + Passed(table[1..], cursor);
      assert forall i | 1 <= i < k :: table[i] == table[1..][i - 1];
      k
  }

  // A good page holds whole rows from the cursor on: all that are left with status 0, at least one
  // with status 6. Where a page is cut, and whether the PLC answers at all, is up to the PLC.
  ghost predicate GoodPage(reply: Result<bytes>, table: seq<TagRecord>, cursor: nat) {
    reply.Ok? ==>
      var cip, k := CipStatus(reply.value), Passed(table, cursor);
      && (cip.status == 0 ==> cip.data == EncodeRecords(table[k..]))
      && (cip.status == 6 ==>
            exists n: nat | 1 <= n && k + n <= |table| :: cip.data == EncodeRecords(table[k..][..n]))
  }

  predicate Answered(reply: Result<bytes>) {
    reply.Ok? && (CipStatus(reply.value).status == 0 || CipStatus(reply.value).status == 6)
  }

  ghost predicate ServesTable(peer: Peer, program: bytes, table: seq<TagRecord>) {
    && ValidTable(table)
    && forall cursor: uint16 :: GoodPage(peer(TagListRequest(program, cursor)), table, cursor)
  }

  // It never fails and never refuses.
  ghost predicate AlwaysAnswers(peer: Peer, program: bytes) {
    forall cursor: uint16 :: Answered(peer(TagListRequest(program, cursor)))
  }

  lemma CursorAfter(table: seq<TagRecord>, k: nat, n: nat)
    requires ValidTable(table) && 1 <= n && k + n <= |table|
    ensures Passed(table, table[k + n - 1].id + 1) == k + n
  {
    var p := Passed(table, table[k + n - 1].id + 1);
    assert p < |table| ==> table[p].id > table[k + n - 1].id;
    assert p > 0 ==> table[p - 1].id <= table[k + n - 1].id;
  }

  // ---- the sequence of cursors ----

  // The last id on the page that answers this cursor with more to come.
  function LastOnPage(peer: Peer, program: bytes, cursor: uint16): Option<uint16> {
    match peer(TagListRequest(program, cursor))
    case Err(_) => None
    case Ok(resp) =>
      if CipStatus(resp).status != 6 then None
      else Some(ParsePacket(CipStatus(resp).data, 0, program, Parsed([], [], 0)).last)
  }

  function NextCursor(peer: Peer, program: bytes, cursor: uint16): Option<uint16> {
    match LastOnPage(peer, program, cursor)
    case None => None
    case Some(last) => Some(ToU16(last as int + 1))
  }

  // The cursor of request number j; None when browsing has ended before it.
  function CursorAt(peer: Peer, program: bytes, j: nat): Option<uint16> {
    if j == 0 then Some(0)
    else
      match CursorAt(peer, program, j - 1)
      case None => None
      case Some(cursor) => NextCursor(peer, program, cursor)
  }

  ghost predicate Ends(peer: Peer, program: bytes) { exists j: nat :: CursorAt(peer, program, j) == None }

  // A partial page that ends with the last possible id is reached.
  ghost predicate WrapsAt(peer: Peer, program: bytes, j: nat) {
    match CursorAt(peer, program, j)
    case None => false
    case Some(cursor) => LastOnPage(peer, program, cursor) == Some(0xFFFF)
  }

  ghost predicate Wraps(peer: Peer, program: bytes) { exists j: nat :: WrapsAt(peer, program, j) }

  // After such a page the same requests are made over again.
  lemma {:induction false} CursorsRepeat(peer: Peer, program: bytes, j: nat, m: nat)
    requires WrapsAt(peer, program, j)
    ensures CursorAt(peer, program, j + 1 + m) == CursorAt(peer, program, m)
  {
    hide LastOnPage;
    if m > 0 { CursorsRepeat(peer, program, j, m - 1); }
  }

  lemma {:induction false} NothingAfterTheEnd(peer: Peer, program: bytes, j: nat, m: nat)
    requires CursorAt(peer, program, j) == None
    ensures CursorAt(peer, program, j + m) == None
  {
    hide NextCursor;
    if m > 0 { NothingAfterTheEnd(peer, program, j, m - 1); }
  }

  lemma {:induction false} NeverEnds(peer: Peer, program: bytes, j: nat, m: nat)
    requires WrapsAt(peer, program, j)
    ensures CursorAt(peer, program, m) != None
  {
    hide CursorAt, LastOnPage;
    if CursorAt(peer, program, m) == None {
      if m <= j {
        NothingAfterTheEnd(peer, program, m, j - m);
      } else {
        CursorsRepeat(peer, program, j, m - j - 1);
        NeverEnds(peer, program, j, m - j - 1);
      }
    }
  }

  // Without one, every page moves the cursor past at least one more row.
  lemma {:induction false} CursorsAdvance(peer: Peer, program: bytes, table: seq<TagRecord>, j: nat)
    requires ServesTable(peer, program, table) && !Wraps(peer, program)
    ensures CursorAt(peer, program, j).Some? ==> Passed(table, CursorAt(peer, program, j).value) >= j
  {
    hide ServesTable, Passed, LastOnPage, TagListRequest;
    if j > 0 && CursorAt(peer, program, j).Some? {
      CursorsAdvance(peer, program, table, j - 1);
      assert !WrapsAt(peer, program, j - 1);
      PageAdvances(peer, program, table, CursorAt(peer, program, j - 1).value);
    }
  }

  lemma PageAdvances(peer: Peer, program: bytes, table: seq<TagRecord>, cursor: uint16)
    requires ServesTable(peer, program, table) && LastOnPage(peer, program, cursor).Some?
    requires LastOnPage(peer, program, cursor) != Some(0xFFFF)
    ensures Passed(table, NextCursor(peer, program, cursor).value) > Passed(table, cursor)
  {
    hide ServesTable, Passed, TagListRequest, CipStatus, ParsePacket, EncodeRecords, Visible, Programs, ValidTable;
    var n := RowsOf(peer, program, table, cursor);
    PageRead(program, table, Passed(table, cursor), n, CipStatus(peer(TagListRequest(program, cursor)).value).data);
  }

  // Browsing one scope comes to an end exactly when no partial page on the way ends with id 65535.
  lemma EndsExactlyWhen(peer: Peer, program: bytes, table: seq<TagRecord>)
    requires ServesTable(peer, program, table)
    ensures Ends(peer, program) <==> !Wraps(peer, program)
  {
    hide ServesTable, WrapsAt, CursorAt;
    if Wraps(peer, program) {
      var j: nat :| WrapsAt(peer, program, j);
      forall m: nat ensures CursorAt(peer, program, m) != None { NeverEnds(peer, program, j, m); }
    } else {
      CursorsAdvance(peer, program, table, |table| + 1);
      assert CursorAt(peer, program, |table| + 1) == None;
    }
  }

  // With lower ids it always does.
  lemma LowIdsEnd(peer: Peer, program: bytes, table: seq<TagRecord>)
    requires ServesTable(peer, program, table) && forall i | 0 <= i < |table| :: table[i].id < 0xFFFF
    ensures Ends(peer, program)
  {
    hide ServesTable, LastOnPage;
    forall j: nat ensures !WrapsAt(peer, program, j) {
      if WrapsAt(peer, program, j) {
        LastIsAnId(peer, program, table, CursorAt(peer, program, j).value);
      }
    }
    EndsExactlyWhen(peer, program, table);
  }

  lemma LastIsAnId(peer: Peer, program: bytes, table: seq<TagRecord>, cursor: uint16)
    requires ServesTable(peer, program, table) && LastOnPage(peer, program, cursor).Some?
    ensures exists i | 0 <= i < |table| :: LastOnPage(peer, program, cursor).value as int == table[i].id as int
  {
    hide ServesTable, Passed, TagListRequest, CipStatus, ParsePacket, EncodeRecords;
    var n := RowsOf(peer, program, table, cursor);
    var k := Passed(table, cursor);
    PageRead(program, table, k, n, CipStatus(peer(TagListRequest(program, cursor)).value).data);
    assert table[k + n - 1].id == LastOnPage(peer, program, cursor).value as int;
  }

  // ---- where browsing a scope stops ----

  // The request number j is the last one: its answer is lost, refused, or complete.
  ghost predicate StopsAt(peer: Peer, program: bytes, j: nat) {
    CursorAt(peer, program, j).Some? && CursorAt(peer, program, j + 1).None?
  }

  ghost predicate LostAt(peer: Peer, program: bytes, j: nat) {
    CursorAt(peer, program, j).Some? && peer(TagListRequest(program, CursorAt(peer, program, j).value)).Err?
  }

  // The request for some page of the scope is lost.
  ghost predicate PageLost(peer: Peer, program: bytes) { exists j: nat :: LostAt(peer, program, j) }

  lemma {:induction false} StopExists(peer: Peer, program: bytes, n: nat) returns (j: nat)
    requires CursorAt(peer, program, n) == None
    ensures StopsAt(peer, program, j)
  {
    hide NextCursor;
    j := n - 1;
    if CursorAt(peer, program, n - 1) == None { j := StopExists(peer, program, n - 1); }
  }

  lemma StopIsUnique(peer: Peer, program: bytes, i: nat, j: nat)
    requires StopsAt(peer, program, i) && StopsAt(peer, program, j)
    ensures i == j
  {
    hide CursorAt;
    if i < j { NothingAfterTheEnd(peer, program, i + 1, j - i - 1); }
    if j < i { NothingAfterTheEnd(peer, program, j + 1, i - j - 1); }
  }

  // Only the last request can be the lost one.
  lemma LostIsLast(peer: Peer, program: bytes, j: nat)
    requires StopsAt(peer, program, j)
    ensures PageLost(peer, program) <==> LostAt(peer, program, j)
  {
    hide LastOnPage, TagListRequest;
    if PageLost(peer, program) {
      var i: nat :| LostAt(peer, program, i);
      assert StopsAt(peer, program, i) by { LostStops(peer, program, i); }
      StopIsUnique(peer, program, i, j);
    }
  }

  lemma LostStops(peer: Peer, program: bytes, i: nat)
    requires LostAt(peer, program, i)
    ensures StopsAt(peer, program, i)
  {
    hide TagListRequest, CipStatus, ParsePacket;
  }

  ghost function StopOf(peer: Peer, program: bytes): (j: nat)
    requires Ends(peer, program)
    ensures StopsAt(peer, program, j)
  {
    var n: nat :| CursorAt(peer, program, n) == None;
    assert exists j: nat :: StopsAt(peer, program, j) by {
      var i := StopExists(peer, program, n);
      assert StopsAt(peer, program, i);
    }
    var j: nat :| StopsAt(peer, program, j);
    j
  }

  // The rows served by then: all of them if the last answer is complete, otherwise those before the cursor
  // of the request that was refused.
  ghost function ServedRows(peer: Peer, program: bytes, table: seq<TagRecord>): (k: nat)
    requires Ends(peer, program)
    ensures k <= |table|
  {
    RowsAt(peer, program, table, CursorAt(peer, program, StopOf(peer, program)).value)
  }

  function RowsAt(peer: Peer, program: bytes, table: seq<TagRecord>, cursor: uint16): (k: nat)
    ensures k <= |table|
  {
    match peer(TagListRequest(program, cursor))
    case Err(_) => Passed(table, cursor)
    case Ok(resp) => if CipStatus(resp).status == 0 then |table| else Passed(table, cursor)
  }

  // Whoever has reached the last request knows the outcome.
  lemma StoppedHere(peer: Peer, program: bytes, table: seq<TagRecord>, j: nat)
    requires Ends(peer, program) && StopsAt(peer, program, j)
    ensures ServedRows(peer, program, table) == RowsAt(peer, program, table, CursorAt(peer, program, j).value)
    ensures PageLost(peer, program) <==> LostAt(peer, program, j)
  {
    hide CursorAt, LostAt;
    StopIsUnique(peer, program, j, StopOf(peer, program));
    LostIsLast(peer, program, j);
  }

  // An answer without more to come is the last.
  lemma NoMoreStops(peer: Peer, program: bytes, j: nat)
    requires CursorAt(peer, program, j).Some?
    requires match peer(TagListRequest(program, CursorAt(peer, program, j).value))
             case Err(_) => true
             case Ok(resp) => CipStatus(resp).status != 6
    ensures StopsAt(peer, program, j)
  {
    hide TagListRequest, CipStatus, ParsePacket;
  }

  // A table of one row with id 65535, sent with the status for more to come: cursor 0 is asked for ever.
  const LAST_ROW: TagRecord := TagRecord(0xFFFF, [65], 0xC4, [0, 0, 0, 0, 0, 0, 0, 0, 0, 0, 0, 0])

  lemma OneRowForEver() returns (peer: Peer)
    ensures ServesTable(peer, [], [LAST_ROW]) && AlwaysAnswers(peer, [])
    ensures forall j: nat :: CursorAt(peer, [], j) == Some(0)
    ensures !Ends(peer, [])
  {
    hide EncodeRecords, CipStatus, TagListRequest, Reply, ParsePacket, LastOnPage;
    var page := EncodeRecords([LAST_ROW]);
    var reply: Result<bytes> := Ok(Reply(0xD5, 6, [], page));
    peer := _ => reply;
    ReplyRoundTrip(0xD5, 6, [], page);
    forall cursor: uint16 ensures GoodPage(peer(TagListRequest([], cursor)), [LAST_ROW], cursor) {
      OneRowIsGood(peer(TagListRequest([], cursor)), cursor);
    }
    OneRowWraps(peer);
    forall j: nat ensures CursorAt(peer, [], j) == Some(0) { AlwaysZero(peer, j); }
  }

  lemma OneRowIsGood(reply: Result<bytes>, cursor: uint16)
    requires reply.Ok? && CipStatus(reply.value).status == 6
    requires CipStatus(reply.value).data == EncodeRecords([LAST_ROW])
    ensures GoodPage(reply, [LAST_ROW], cursor)
  {
    hide EncodeRecords, CipStatus;
    assert Passed([LAST_ROW], cursor) == 0;
    assert [LAST_ROW][0..][..1] == [LAST_ROW];
  }

  lemma OneRowWraps(peer: Peer)
    requires var reply := peer(TagListRequest([], 0));
             reply.Ok? && CipStatus(reply.value).status == 6 && CipStatus(reply.value).data == EncodeRecords([LAST_ROW])
    ensures LastOnPage(peer, [], 0) == Some(0xFFFF)
  {
    hide EncodeRecords, CipStatus, TagListRequest, ParsePacket, Visible, Programs;
    var page := EncodeRecords([LAST_ROW]);
    assert page[0..] == page;
    ParseEncoded(page, 0, [], [LAST_ROW], Parsed([], [], 0));
  }

  lemma {:induction false} AlwaysZero(peer: Peer, j: nat)
    requires LastOnPage(peer, [], 0) == Some(0xFFFF)
    ensures CursorAt(peer, [], j) == Some(0)
  {
    hide LastOnPage;
    if j > 0 { AlwaysZero(peer, j - 1); }
  }

  // The controller's table and one table for each program it names.
  ghost predicate ServesAll(peer: Peer, controller: seq<TagRecord>, programs: map<bytes, seq<TagRecord>>) {
    && ServesTable(peer, [], controller)
    && forall name | name in Programs([], controller) ::
         name != [] && name in programs && ServesTable(peer, name, programs[name])
  }

  // No scope is asked for over and over.
  ghost predicate EndsAll(peer: Peer, controller: seq<TagRecord>) {
    Ends(peer, []) && forall name | name in Programs([], controller) :: Ends(peer, name)
  }

  ghost predicate AnswersAll(peer: Peer, controller: seq<TagRecord>) {
    && AlwaysAnswers(peer, [])
    && forall name | name in Programs([], controller) :: AlwaysAnswers(peer, name)
  }

  // What arrives of the programs' tags when some of their pages are refused.
  ghost function ServedTags(peer: Peer, names: seq<bytes>, programs: map<bytes, seq<TagRecord>>): seq<TagInfo> {
    if names == [] then []
    else
      var n := |names| - 1;
      ServedTags(peer, names[..n], programs)
      + (if names[n] in programs && Ends(peer, names[n]) then
           Visible(names[n], programs[names[n]][..ServedRows(peer, names[n], programs[names[n]])])
         else [])
  }

  lemma ServedTagsNext(
    peer: Peer, names: seq<bytes>, i: nat, programs: map<bytes, seq<TagRecord>>, tags: seq<TagInfo>, n: nat)
    requires i < |names| && names[i] in programs && Ends(peer, names[i])
    requires n == ServedRows(peer, names[i], programs[names[i]]) && tags == Visible(names[i], programs[names[i]][..n])
    ensures ServedTags(peer, names[..i + 1], programs) == ServedTags(peer, names[..i], programs) + tags
  {
    hide Visible, Ends, ServedRows;
    assert names[..i + 1][..i] == names[..i];
  }

  lemma NoProgramTags(peer: Peer, tags: seq<TagInfo>, programs: map<bytes, seq<TagRecord>>)
    ensures tags + ProgramTags([], programs) == tags && tags + ServedTags(peer, [], programs) == tags
  {
  }

  function ProgramTags(names: seq<bytes>, programs: map<bytes, seq<TagRecord>>): seq<TagInfo> {
    if names == [] then []
    else (if names[0] in programs then Visible(names[0], programs[names[0]]) else [])
         + ProgramTags(names[1..], programs)
  }

  // What a complete browse returns.
  function AllTags(controller: seq<TagRecord>, programs: map<bytes, seq<TagRecord>>, withPrograms: bool): seq<TagInfo> {
    if withPrograms then Visible([], controller) + ProgramTags(Programs([], controller), programs)
    else Visible([], controller)
  }

  lemma WholeScope(program: bytes, table: seq<TagRecord>, tags: seq<TagInfo>, before: seq<bytes>, after: seq<bytes>)
    requires Initial(program, table, |table|, tags, before, after)
    ensures tags == Visible(program, table) && after == before + Programs(program, table)
    ensures before == [] ==> after == Programs(program, table)
  {
    hide Visible, Programs;
    assert table[..|table|] == table;
  }

  lemma {:induction false} ProgramTagsSnoc(names: seq<bytes>, name: bytes, programs: map<bytes, seq<TagRecord>>)
    requires name in programs
    ensures ProgramTags(names + [name], programs) == ProgramTags(names, programs) + Visible(name, programs[name])
  {
    hide Visible;
    if names == [] {
      assert [name][1..] == [];
    } else {
      assert (names + [name])[1..] == names[1..] + [name];
      ProgramTagsSnoc(names[1..], name, programs);
    }
  }

  ghost predicate IsVisible(program: bytes, table: seq<TagRecord>, tag: TagInfo) {
    !IsGarbage(tag.name) && exists i | 0 <= i < |table| :: tag == TagOf(program, table[i])
  }

  ghost predicate Ascending(tags: seq<TagInfo>) {
    forall i, j | 0 <= i < j < |tags| :: tags[i].instanceId < tags[j].instanceId
  }

  // The visible tags are those of the unfiltered rows, in the order of their instance ids: every one of
  // them is there, and once only.
  lemma {:induction false} VisibleIsExact(program: bytes, table: seq<TagRecord>)
    requires ValidTable(table)
    ensures forall tag :: tag in Visible(program, table) <==> IsVisible(program, table, tag)
    ensures Ascending(Visible(program, table))
  {
    hide IsFilteredTag, TagOf, IsGarbage;
    if table != [] {
      VisibleIsExact(program, table[1..]);
      forall tag ensures tag in Visible(program, table) <==> IsVisible(program, table, tag) {
        VisibleStep(program, table, tag);
      }
      FirstIdIsLowest(program, table);
    }
  }

  lemma VisibleStep(program: bytes, table: seq<TagRecord>, tag: TagInfo)
    requires table != [] && (tag in Visible(program, table[1..]) <==> IsVisible(program, table[1..], tag))
    ensures tag in Visible(program, table) <==> IsVisible(program, table, tag)
  {
    hide IsFilteredTag, IsGarbage, TagOf;
    FilteredExactlyWhen(tag.name);
    if i :| 0 <= i < |table| && tag == TagOf(program, table[i]) {
      assert i > 0 ==> table[1..][i - 1] == table[i];
    }
  }

  lemma FirstIdIsLowest(program: bytes, table: seq<TagRecord>)
    requires ValidTable(table) && table != [] && Ascending(Visible(program, table[1..]))
    requires forall tag :: tag in Visible(program, table[1..]) <==> IsVisible(program, table[1..], tag)
    ensures Ascending(Visible(program, table))
  {
    hide IsFilteredTag, IsGarbage, QualifiedName, SymbolType, DataType, ArrayDims, IsStruct, ReadU16, IsVisible;
    hide ValidTable;
    FirstId(program, table);
    var later := Visible(program, table[1..]);
    forall k | 0 <= k < |later| ensures table[0].id as int < later[k].instanceId as int {
      assert later[k] in later;
      LaterId(program, table, later[k]);
    }
  }

  lemma FirstId(program: bytes, table: seq<TagRecord>)
    requires ValidTable(table) && table != []
    ensures TagOf(program, table[0]).instanceId == table[0].id
  {
  }

  lemma LaterId(program: bytes, table: seq<TagRecord>, tag: TagInfo)
    requires ValidTable(table) && table != [] && IsVisible(program, table[1..], tag)
    ensures table[0].id as int < tag.instanceId as int
  {
  }

  lemma {:induction false} VisibleIsSmall(program: bytes, rs: seq<TagRecord>)
    ensures AllSmall(Visible(program, rs))
  {
    hide IsFilteredTag;
    if rs != [] {
      VisibleIsSmall(program, rs[1..]);
      SmallAppend(Shown(TagOf(program, rs[0])), Visible(program, rs[1..]));
    }
  }

  lemma {:induction false} SmallAppend(a: seq<TagInfo>, b: seq<TagInfo>)
    requires AllSmall(a) && AllSmall(b)
    ensures AllSmall(a + b)
  {
    if a == [] {
      assert a + b == b;
    } else {
      assert (a + b)[1..] == a[1..] + b;
      SmallAppend(a[1..], b);
    }
  }

  lemma {:induction false} OnlyTheControllerAnnounces(program: bytes, rs: seq<TagRecord>)
    requires program != []
    ensures Programs(program, rs) == []
  {
    if rs != [] { OnlyTheControllerAnnounces(program, rs[1..]); }
  }

  lemma ControllerPart(controller: seq<TagRecord>, k: nat, programs: map<bytes, seq<TagRecord>>, names: seq<bytes>)
    requires k <= |controller| && names == [] + Programs([], controller[..k])
    ensures forall name | name in names :: name in Programs([], controller)
  {
    assert controller == controller[..k] + controller[k..];
    VisibleAppend([], controller[..k], controller[k..]);
  }

  lemma ProgramPart(
    program: bytes, table: seq<TagRecord>, n: nat, tags: seq<TagInfo>, before: seq<bytes>, after: seq<bytes>)
    requires program != [] && n <= |table| && Initial(program, table, n, tags, before, after)
    ensures after == before && AllSmall(tags)
  {
    OnlyTheControllerAnnounces(program, table[..n]);
    VisibleIsSmall(program, table[..n]);
  }

  // ---- what a tag's name means on the wire ----

  // A name that makes one segment of a symbolic path.
  predicate Addressable(name: bytes) { CipPath.WellFormed(CipPath.Component(name, None)) }

  // Where a tag lives: in the controller, or in a program.
  function Address(program: bytes, name: bytes): seq<CipPath.Component> {
    if program == [] then [CipPath.Component(name, None)]
    else [CipPath.Component(program, None), CipPath.Component(name, None)]
  }

  // The PLC reads program and tag out of the path built for a tag's name: two segments, or one for a tag
  // of the controller. The name itself is the two with a dot between them.
  lemma QualifiedOnWire(program: bytes, name: bytes)
    requires Addressable(name) && (program == [] || Addressable(program))
    ensures QualifiedName(program, name) == (if program == [] then name else program + Ascii(".") + name)
    ensures var path := CipPath.SymbolicPath(QualifiedName(program, name));
            path.Ok? && CipPath.DecodeSymbolic(path.value) == Some(Address(program, name))
  {
    var cs := Address(program, name);
    assert CipPath.PrintPath(cs) == QualifiedName(program, name) by { AddressPrinted(program, name); }
    forall c | c in cs ensures CipPath.WellFormed(c) {
      assert c == CipPath.Component(name, None) || (program != [] && c == CipPath.Component(program, None));
    }
    CipPath.SymbolicRoundTrip(cs);
  }

  lemma AddressPrinted(program: bytes, name: bytes)
    ensures CipPath.PrintPath(Address(program, name)) == QualifiedName(program, name)
    ensures program != [] ==> QualifiedName(program, name) == program + Ascii(".") + name
  {
    var p, n := CipPath.Component(program, None), CipPath.Component(name, None);
    assert CipPath.PrintComponent(p) == program && CipPath.PrintComponent(n) == name;
    assert [n][1..] == [] && [p, n][1..] == [n];
    assert CipPath.Printed([n]) == [name] && CipPath.Printed([p, n]) == [program, name];
    assert [program, name][1..] == [name] && Join([name], DOT) == name;
    assert Join([program, name], DOT) == program + [DOT] + Join([name], DOT);
    assert Ascii(".") == [DOT];
  }

  // A tag of this scope, whose name leads the PLC back to the row it comes from.
  ghost predicate LeadsTo(tag: TagInfo, program: bytes, table: seq<TagRecord>) {
    exists i | 0 <= i < |table| ::
      && tag == TagOf(program, table[i])
      && CipPath.SymbolicPath(tag.name).Ok?
      && CipPath.DecodeSymbolic(CipPath.SymbolicPath(tag.name).value) == Some(Address(program, table[i].name))
  }

  ghost predicate AllAddressable(table: seq<TagRecord>) {
    forall i | 0 <= i < |table| :: Addressable(table[i].name)
  }

  lemma ScopeOnWire(program: bytes, table: seq<TagRecord>, tag: TagInfo)
    requires ValidTable(table) && AllAddressable(table) && (program == [] || Addressable(program))
    requires tag in Visible(program, table)
    ensures LeadsTo(tag, program, table)
  {
    hide QualifiedName, Addressable;
    VisibleIsExact(program, table);
    var i :| 0 <= i < |table| && tag == TagOf(program, table[i]);
    QualifiedOnWire(program, table[i].name);
  }

  lemma {:induction false} ProgramsOnWire(names: seq<bytes>, programs: map<bytes, seq<TagRecord>>, tag: TagInfo)
    requires tag in ProgramTags(names, programs)
    requires forall name | name in names && name in programs ::
      Addressable(name) && ValidTable(programs[name]) && AllAddressable(programs[name])
    ensures exists name | name in names && name in programs :: LeadsTo(tag, name, programs[name])
  {
    hide Visible, Addressable, AllAddressable, ValidTable, LeadsTo;
    assert names[0] in names;
    if names[0] in programs && tag in Visible(names[0], programs[names[0]]) {
      ScopeOnWire(names[0], programs[names[0]], tag);
    } else {
      ProgramsOnWire(names[1..], programs, tag);
      var name :| name in names[1..] && name in programs && LeadsTo(tag, name, programs[name]);
      assert name in names;
    }
  }

  // Every tag of a complete browse can be addressed by its name: the path built for it names the row of the
  // controller's table, or the program and the row of its table, that the tag comes from.
  lemma AllTagsOnWire(
    controller: seq<TagRecord>, programs: map<bytes, seq<TagRecord>>, withPrograms: bool, tag: TagInfo)
    requires tag in AllTags(controller, programs, withPrograms)
    requires ValidTable(controller) && AllAddressable(controller)
    requires forall name | name in Programs([], controller) && name in programs ::
      Addressable(name) && ValidTable(programs[name]) && AllAddressable(programs[name])
    ensures LeadsTo(tag, [], controller)
         || exists name | name in Programs([], controller) && name in programs :: LeadsTo(tag, name, programs[name])
  {
    hide Visible, Programs, Addressable, AllAddressable, ValidTable, LeadsTo;
    if tag in Visible([], controller) {
      ScopeOnWire([], controller, tag);
    } else {
      ProgramsOnWire(Programs([], controller), programs, tag);
    }
  }

  // ---- type reachability ----

  // A walk that starts at a root and follows struct members of fetchable types.
  ghost predicate Walk(peer: Peer, roots: set<uint16>, p: seq<uint16>)
    requires Progressive(peer)
  {
    && p != [] && p[0] in roots
    && forall i | 0 < i < |p| :: StepsTo(peer, p[i - 1], p[i])
  }

  ghost predicate StepsTo(peer: Peer, a: uint16, b: uint16)
    requires Progressive(peer)
  {
    Fetch(peer, a).Some? && b in Fetch(peer, a).value.nested
  }

  ghost predicate Reaches(peer: Peer, roots: set<uint16>, id: uint16)
    requires Progressive(peer)
  {
    exists p :: Walk(peer, roots, p) && p[|p| - 1] == id
  }

  lemma ReachesRoot(peer: Peer, roots: set<uint16>, id: uint16)
    requires Progressive(peer) && id in roots
    ensures Reaches(peer, roots, id)
  {
    assert Walk(peer, roots, [id]) && [id][|[id]| - 1] == id;
  }

  lemma ReachesStep(peer: Peer, roots: set<uint16>, a: uint16, b: uint16)
    requires Progressive(peer) && Reaches(peer, roots, a) && StepsTo(peer, a, b)
    ensures Reaches(peer, roots, b)
  {
    hide StepsTo;
    var p :| Walk(peer, roots, p) && p[|p| - 1] == a;
    var q := p + [b];
    forall i | 0 < i < |q| ensures StepsTo(peer, q[i - 1], q[i]) {
      if i < |p| { assert StepsTo(peer, p[i - 1], p[i]); }
    }
    assert Walk(peer, roots, q) && q[|q| - 1] == b;
  }

  // Every definition kept is the fetched one of a reachable type.
  ghost predicate Sound(peer: Peer, roots: set<uint16>, udts: UdtTable)
    requires Progressive(peer)
  {
    forall id | id in udts ::
      && Reaches(peer, roots, id) && id < 4096
      && Fetch(peer, id).Some? && udts[id] == Fetch(peer, id).value.udt
  }

  // Resolved, unfetchable, or still waiting.
  ghost predicate Handled(peer: Peer, udts: UdtTable, waiting: set<uint16>, id: uint16)
    requires Progressive(peer)
  {
    id in udts || id in waiting || Fetch(peer, id).None?
  }

  ghost predicate Closed(peer: Peer, roots: set<uint16>, udts: UdtTable, waiting: set<uint16>)
    requires Progressive(peer)
  {
    && (forall id | id in roots :: Handled(peer, udts, waiting, id))
    && (forall a, b | a in udts && StepsTo(peer, a, b) :: Handled(peer, udts, waiting, b))
  }

  ghost predicate AllReached(peer: Peer, roots: set<uint16>, waiting: set<uint16>)
    requires Progressive(peer)
  {
    forall id | id in waiting :: Reaches(peer, roots, id) && id < 4096
  }

  // The outcome of resolving: exactly the fetchable types that can be reached.
  ghost predicate Resolved(peer: Peer, roots: set<uint16>, udts: UdtTable)
    requires Progressive(peer)
  {
    forall id ::
      && (id in udts <==> Reaches(peer, roots, id) && Fetch(peer, id).Some?)
      && (id in udts ==> udts[id] == Fetch(peer, id).value.udt)
  }

  // No type is kept whose attributes or template could not be had.
  ghost predicate NoneUnfetchable(peer: Peer, udts: UdtTable)
    requires Progressive(peer)
  {
    forall id | id in udts :: !Unfetchable(peer, id)
  }

  lemma ResolvedIsFetchable(peer: Peer, roots: set<uint16>, udts: UdtTable)
    requires Progressive(peer) && Resolved(peer, roots, udts)
    ensures NoneUnfetchable(peer, udts)
  {
    hide Fetch, Unfetchable;
    forall id | id in udts ensures !Unfetchable(peer, id) { FetchFailsExactlyWhen(peer, id); }
  }

  lemma {:induction false} WalkIsResolved(peer: Peer, roots: set<uint16>, udts: UdtTable, p: seq<uint16>)
    requires Progressive(peer) && Closed(peer, roots, udts, {})
    requires Walk(peer, roots, p) && Fetch(peer, p[|p| - 1]).Some?
    ensures p[|p| - 1] in udts
  {
    hide Fetch;
    if |p| > 1 {
      var q := p[..|p| - 1];
      assert StepsTo(peer, p[|p| - 2], p[|p| - 1]);
      assert Walk(peer, roots, q) by {
        forall i | 0 < i < |q| ensures StepsTo(peer, q[i - 1], q[i]) { assert StepsTo(peer, p[i - 1], p[i]); }
      }
      WalkIsResolved(peer, roots, udts, q);
      assert Handled(peer, udts, {}, p[|p| - 1]);
    } else {
      assert Handled(peer, udts, {}, p[0]);
    }
  }

  // The worklist invariant: the definitions kept, and the types still waiting.
  ghost predicate OnTrack(peer: Peer, roots: set<uint16>, udts: UdtTable, waiting: set<uint16>)
    requires Progressive(peer)
  {
    Sound(peer, roots, udts) && Closed(peer, roots, udts, waiting) && AllReached(peer, roots, waiting)
  }

  lemma OnTrackAtStart(peer: Peer, roots: set<uint16>)
    requires Progressive(peer) && forall id | id in roots :: id < 4096
    ensures OnTrack(peer, roots, map[], roots)
  {
    hide Fetch;
    forall id | id in roots ensures Reaches(peer, roots, id) { ReachesRoot(peer, roots, id); }
  }

  lemma OnTrackAtEnd(peer: Peer, roots: set<uint16>, udts: UdtTable)
    requires Progressive(peer) && OnTrack(peer, roots, udts, {})
    ensures Resolved(peer, roots, udts)
  {
    hide Fetch;
    forall id | Reaches(peer, roots, id) && Fetch(peer, id).Some? ensures id in udts {
      var p :| Walk(peer, roots, p) && p[|p| - 1] == id;
      WalkIsResolved(peer, roots, udts, p);
    }
  }

  // A successful fetch moves a type from the waiting ones to the table and adds its member types.
  lemma Adding(peer: Peer, roots: set<uint16>, udts: UdtTable, waiting: set<uint16>, id: uint16)
    requires Progressive(peer) && Fetch(peer, id).Some?
    requires OnTrack(peer, roots, udts, waiting + {id})
    ensures var f := Fetch(peer, id).value;
            OnTrack(peer, roots, udts[id := f.udt], waiting + (f.nested - udts.Keys))
  {
    hide Fetch;
    var f := Fetch(peer, id).value;
    FetchedTypesAreSmall(peer, id);
    forall n | n in f.nested ensures Reaches(peer, roots, n) {
      ReachesStep(peer, roots, id, n);
    }
    var udts', waiting' := udts[id := f.udt], waiting + (f.nested - udts.Keys);
    forall a, b | a in udts' && StepsTo(peer, a, b) ensures Handled(peer, udts', waiting', b) {
      if a != id { assert Handled(peer, udts, waiting + {id}, b); }
    }
    forall r | r in roots ensures Handled(peer, udts', waiting', r) {
      assert Handled(peer, udts, waiting + {id}, r);
    }
  }

  // A type that is already there or cannot be fetched just stops waiting.
  lemma Skipping(peer: Peer, roots: set<uint16>, udts: UdtTable, waiting: set<uint16>, id: uint16)
    requires Progressive(peer) && (id in udts || Fetch(peer, id).None?)
    requires OnTrack(peer, roots, udts, waiting + {id})
    ensures OnTrack(peer, roots, udts, waiting)
  {
    hide Fetch;
    forall a, b | a in udts && StepsTo(peer, a, b) ensures Handled(peer, udts, waiting, b) {
      assert Handled(peer, udts, waiting + {id}, b);
    }
    forall r | r in roots ensures Handled(peer, udts, waiting, r) {
      assert Handled(peer, udts, waiting + {id}, r);
    }
  }

  lemma TakeOne(todo: set<uint16>, next: set<uint16>, id: uint16)
    requires id in todo
    ensures todo + next == todo - {id} + next + {id}
  {
  }

  lemma Regroup3(a: set<uint16>, b: set<uint16>, c: set<uint16>)
    ensures a + (b + c) == a + b + c
  {
  }

  lemma AddOne(udts: UdtTable, id: uint16, d: UdtDef)
    requires id !in udts
    ensures multiset(udts[id := d].Keys) == multiset(udts.Keys) + multiset{id}
    ensures udts.Keys < udts[id := d].Keys
  {
  }

  lemma Larger(a: set<uint16>, b: set<uint16>)
    requires a <= b
    ensures |a| <= |b| && (a < b ==> |a| < |b|)
  {
    assert b == a + (b - a);
    assert a < b ==> b - a != {};
  }

  lemma {:induction false} SmallSets(s: set<uint16>, n: nat)
    requires forall x | x in s :: x < n
    ensures |s| <= n
  {
    if n == 0 {
      assert s == {};
    } else {
      SmallSets(s - {n - 1}, n - 1);
      if n - 1 in s { assert |s| == |s - {n - 1}| + 1; } else { assert s - {n - 1} == s; }
    }
  }

  lemma TablesAreSmall(peer: Peer, roots: set<uint16>, udts: UdtTable, waiting: set<uint16>)
    requires Progressive(peer) && OnTrack(peer, roots, udts, waiting)
    ensures |udts| <= 4096
  {
    hide Fetch;
    SmallSets(udts.Keys, 4096);
    assert |udts| == |udts.Keys|;
  }

  function StructTypes(tags: seq<TagInfo>): set<uint16> {
    if tags == [] then {}
    else (if tags[0].isStruct then {tags[0].dataTypeValue} else {}) + StructTypes(tags[1..])
  }

  predicate AllSmall(tags: seq<TagInfo>) {
    tags == [] || (tags[0].dataTypeValue < 4096 && AllSmall(tags[1..]))
  }

  lemma {:induction false} StructTypesSmall(tags: seq<TagInfo>)
    requires AllSmall(tags)
    ensures forall id | id in StructTypes(tags) :: id < 4096
  {
    if tags != [] { StructTypesSmall(tags[1..]); }
  }

  class TagBrowser {
    var udts: UdtTable
    var programNames: seq<bytes>

    constructor ()
      ensures udts == map[] && programNames == []
    {
      udts, programNames := map[], [];
    }

    // One page of the tag list.
    method ParseTagPacket(data: bytes, program: bytes) returns (tags: seq<TagInfo>, lastOffset: uint16)
      modifies this`programNames
      ensures var p := ParsePacket(data, 0, program, Parsed([], [], 0));
              tags == p.tags && lastOffset == p.last && programNames == old(programNames) + p.programs
    {
      hide IsFilteredTag, ArrayDims, SymbolType, DataType, IsStruct, ReadU16, ParsePacket;
      tags, lastOffset := [], 0;
      ghost var programs: seq<bytes> := [];
      var pos: nat := 0;
      ghost var whole := ParsePacket(data, 0, program, Parsed([], [], 0));
      while pos + 6 < |data|
        invariant whole == ParsePacket(data, pos, program, Parsed(tags, programs, lastOffset))
        invariant programNames == old(programNames) + programs
      {
        ghost var soFar := Parsed(tags, programs, lastOffset);
        ParseStep(data, pos, program, soFar);
        lastOffset := ReadU16(data, pos);
        var nameLen: nat := ReadU16(data, pos + 4);
        if pos + 6 + nameLen + 2 > |data| {
          return;
        }
        var name := data[pos + 6..pos + 6 + nameLen];
        var typeVal := ReadU16(data, pos + 6 + nameLen);
        var arraySize := 0;
        if ArrayDims(typeVal) > 0 && pos + 6 + nameLen + 4 <= |data| {
          arraySize := ReadU16(data, pos + 6 + nameLen + 2);
        }
        var tag := TagInfo(QualifiedName(program, name), lastOffset, SymbolType(typeVal), DataType(typeVal),
                           ArrayDims(typeVal), IsStruct(typeVal), arraySize);
        assert EntryAt(data, pos, program) == Whole(tag, name, nameLen + 20);
        if program == [] && PROGRAM <= name {
          programNames := programNames + [name];
          programs := programs + [name];
        }
        if !IsFilteredTag(tag.name) {
          tags := tags + [tag];
        }
        assert tags == soFar.tags + Shown(tag) && programs == soFar.programs + Announced(program, name);
        pos := pos + nameLen + 20;
      }
      ParseStep(data, pos, program, Parsed(tags, programs, lastOffset));
    }

    // One request and its answer; `n` rows of the table arrive.
    method BrowsePage(peer: Peer, program: bytes, offset: uint16, ghost table: seq<TagRecord>, ghost k: nat)
      returns (r: Result<(int, seq<TagInfo>, uint16)>, ghost n: nat)
      requires ServesTable(peer, program, table) && k == Passed(table, offset)
      modifies this`programNames
      ensures r.Ok? && (r.value.0 == 0 || r.value.0 == 6) ==>
        && k + n <= |table|
        && Visible(program, table[..k + n]) == Visible(program, table[..k]) + r.value.1
        && programNames == old(programNames) + Programs(program, table[k..][..n])
        && (r.value.0 == 0 ==> k + n == |table|)
        && (r.value.0 == 6 ==> n > 0 && NextCursor(peer, program, offset) == Some(r.value.2))
        && (r.value.0 == 6 && LastOnPage(peer, program, offset) != Some(0xFFFF) ==> Passed(table, r.value.2) == k + n)
      ensures match peer(TagListRequest(program, offset))
              case Err(e) => r == Err(e)
              case Ok(resp) => r.Ok? && r.value.0 == CipStatus(resp).status as int
      ensures r.Err? ==> programNames == old(programNames)
      ensures r.Err? || (r.value.0 != 0 && r.value.0 != 6) ==> !AlwaysAnswers(peer, program)
      ensures r.Ok? && r.value.0 != 0 && r.value.0 != 6 ==> programNames == old(programNames)
    {
      hide TagListRequest, CipStatus, EncodeRecords, Visible, Programs, ParsePacket;
      hide ServesTable, AlwaysAnswers, Passed;
      n := 0;
      var request := BuildTagListRequest(program, offset);
      var response := peer(request);
      Unanswered(peer, program, offset);
      if response.Err? {
        return Err(response.error), 0;
      }
      var cip := ParseCipStatus(response.value);
      if cip.status != 0 && cip.status != 6 {
        return Ok((cip.status as int, [], offset)), 0;
      }
      n := RowsOf(peer, program, table, offset);
      var page, lastOffset := ParseTagPacket(cip.data, program);
      PageRead(program, table, k, n, cip.data);
      r := Ok((cip.status as int, page, ToU16(lastOffset as int + 1)));
    }

    // All pages of one scope: the controller's when `program` is empty. It throws exactly when the request
    // for a page is lost; otherwise the tags are those of the rows served, each once and in order, and of
    // the whole table when the PLC keeps answering.
    method BrowseScope(peer: Peer, program: bytes, ghost table: seq<TagRecord>) returns (r: Result<seq<TagInfo>>)
      requires ServesTable(peer, program, table) && Ends(peer, program)
      modifies this`programNames
      ensures r.Err? <==> PageLost(peer, program)
      ensures program != [] ==> programNames == old(programNames)
      ensures r.Ok? ==>
        Initial(program, table, ServedRows(peer, program, table), r.value, old(programNames), programNames)
      ensures AlwaysAnswers(peer, program) ==>
                r.Ok? && Initial(program, table, |table|, r.value, old(programNames), programNames)
    {
      hide ServesTable, AlwaysAnswers, Visible, Programs, Passed, Ends, NextCursor, LastOnPage, StopsAt, PageLost;
      hide TagListRequest, CipStatus, CursorAt, ServedRows;
      var tags: seq<TagInfo> := [];
      var offset: uint16 := 0;
      var status := 6;
      ghost var k, j := 0, 0;
      EndsExactlyWhen(peer, program, table);
      ScopeStart(program, table);
      FirstCursor(peer, program);
      assert programNames + [] == programNames;
      while status == 6 || status == 0
        invariant status == 6 || (status != 0 && !AlwaysAnswers(peer, program))
        invariant status != 6 ==> !PageLost(peer, program) && k == ServedRows(peer, program, table)
        invariant k <= |table| && (status == 6 ==> k == Passed(table, offset))
        invariant status == 6 ==> CursorAt(peer, program, j) == Some(offset)
        invariant Initial(program, table, k, tags, old(programNames), programNames)
        invariant program != [] ==> programNames == old(programNames)
        decreases |table| - k, status == 6
      {
        var page;
        ghost var n, names := 0, programNames;
        assert status == 6 ==> !WrapsAt(peer, program, j) by { NoWrap(peer, program, j); }
        page, n := BrowsePage(peer, program, offset, table, k);
        NextOrStop(peer, program, table, j, offset);
        j := j + 1;
        if page.Err? {
          return Err(page.error);
        }
        status := page.value.0;
        if status == 0 || status == 6 {
          AddPage(program, table, k, n, tags, page.value.1, old(programNames), names, programNames);
          if program != [] { ProgramPart(program, table, k + n, tags + page.value.1, old(programNames), programNames); }
          tags := tags + page.value.1;
          offset := page.value.2;
          k := k + n;
        }
        if status == 0 {
          return Ok(tags);
        }
      }
      r := Ok(tags);
    }

    // The loop over the programs the controller's tags have named.
    method BrowsePrograms(peer: Peer, controllerTags: seq<TagInfo>,
                          ghost controller: seq<TagRecord>, ghost programs: map<bytes, seq<TagRecord>>)
      returns (r: Result<seq<TagInfo>>)
      requires ServesAll(peer, controller, programs) && EndsAll(peer, controller) && AllSmall(controllerTags)
      requires forall name | name in programNames :: name in Programs([], controller)
      modifies this`programNames
      ensures programNames == old(programNames) && (r.Ok? ==> AllSmall(r.value))
      ensures r.Err? <==> exists name | name in old(programNames) :: PageLost(peer, name)
      ensures r.Ok? ==> r.value == controllerTags + ServedTags(peer, old(programNames), programs)
      ensures AnswersAll(peer, controller) ==> r == Ok(controllerTags + ProgramTags(old(programNames), programs))
    {
      hide Visible, Programs, ServesTable, AlwaysAnswers, Ends, PageLost, ServedRows, ServedTags, ProgramTags, AllSmall;
      ghost var names := programNames;
      var allTags := controllerTags;
      NoProgramTags(peer, controllerTags, programs);
      assert names[..0] == [];
      for pi := 0 to |programNames|
        invariant programNames == names && AllSmall(allTags)
        invariant forall i | 0 <= i < pi :: !PageLost(peer, names[i])
        invariant allTags == controllerTags + ServedTags(peer, names[..pi], programs)
        invariant AnswersAll(peer, controller) ==> allTags == controllerTags + ProgramTags(names[..pi], programs)
      {
        var prog := programNames[pi];
        assert prog in names;
        var tags :- BrowseScope(peer, prog, programs[prog]);
        ghost var n := ServedRows(peer, prog, programs[prog]);
        ServedTagsNext(peer, names, pi, programs, tags, n);
        Regroup(controllerTags, ServedTags(peer, names[..pi], programs), tags);
        ProgramPart(prog, programs[prog], n, tags, names, programNames);
        SmallAppend(allTags, tags);
        if AnswersAll(peer, controller) {
          WholeScope(prog, programs[prog], tags, names, programNames);
          ProgramTagsSnoc(names[..pi], prog, programs);
          Regroup(controllerTags, ProgramTags(names[..pi], programs), tags);
        }
        assert names[..pi + 1] == names[..pi] + [prog];
        allTags := allTags + tags;
      }
      assert names[..|names|] == names;
      r := Ok(allTags);
    }

    // The whole browse. When the PLC keeps answering, the result is its visible tags: the
    // controller's, then those of every program in the order the controller lists them, each exactly
    // once; and in any case the definitions kept are those of the types the result can reach.
    method Browse(peer: Peer, includeProgramTags: bool,
                  ghost controller: seq<TagRecord>, ghost programs: map<bytes, seq<TagRecord>>)
      returns (r: Result<seq<TagInfo>>)
      requires Progressive(peer) && ServesAll(peer, controller, programs) && EndsAll(peer, controller)
      modifies this
      ensures r.Ok? ==> Resolved(peer, StructTypes(r.value), udts) && NoneUnfetchable(peer, udts)
      ensures r.Err? <==>
        PageLost(peer, []) || (includeProgramTags && exists name | name in programNames :: PageLost(peer, name))
      ensures r.Ok? ==>
        var rows := controller[..ServedRows(peer, [], controller)];
        && programNames == Programs([], rows)
        && r.value == Visible([], rows) + if includeProgramTags then ServedTags(peer, programNames, programs) else []
      ensures AnswersAll(peer, controller) ==> r == Ok(AllTags(controller, programs, includeProgramTags))
    {
      hide PageLost, ServedRows, ServedTags;
      hide Fetch, Progressive, Visible, Programs, ServesTable, AlwaysAnswers, Ends, Resolved;
      programNames := [];
      udts := map[];
      var allTags :- BrowseScope(peer, [], controller);
      ghost var k := ServedRows(peer, [], controller);
      ControllerPart(controller, k, programs, programNames);
      VisibleIsSmall([], controller[..k]);
      if AnswersAll(peer, controller) {
        WholeScope([], controller, allTags, [], programNames);
      }
      if includeProgramTags {
        allTags :- BrowsePrograms(peer, allTags, controller, programs);
      }
      ghost var fetched := ResolveUdts(peer, allTags);
      r := Ok(allTags);
    }

    // One type of the resolving loop: the member types to look at in the next round. `fetched` counts
    // the successful fetch, if there was one.
    method ResolveType(peer: Peer, typeId: uint16, ghost roots: set<uint16>, ghost waiting: set<uint16>)
      returns (found: set<uint16>, ghost fetched: multiset<uint16>)
      requires Progressive(peer) && OnTrack(peer, roots, udts, waiting + {typeId})
      modifies this`udts
      ensures OnTrack(peer, roots, udts, waiting + found)
      ensures multiset(udts.Keys) == multiset(old(udts).Keys) + fetched
      ensures old(udts).Keys <= udts.Keys && (found != {} ==> old(udts).Keys < udts.Keys)
    {
      hide Fetch, OnTrack, Progressive;
      found, fetched := {}, multiset{};
      assert waiting + {} == waiting;
      if typeId in udts {
        Skipping(peer, roots, udts, waiting, typeId);
        return;
      }
      var got := FetchType(peer, typeId);
      if got.None? {
        Skipping(peer, roots, udts, waiting, typeId);
        return;
      }
      Adding(peer, roots, udts, waiting, typeId);
      AddOne(udts, typeId, got.value.udt);
      found := got.value.nested - udts.Keys;
      udts := udts[typeId := got.value.udt];
      fetched := multiset{typeId};
    }

    // One round: every type in `toResolve` is tried once. The C++ set is walked in ascending order;
    // here the order is left open, so the outcome holds for any.
    method ResolveRound(peer: Peer, toResolve: set<uint16>, ghost roots: set<uint16>)
      returns (nextResolve: set<uint16>, ghost fetched: multiset<uint16>)
      requires Progressive(peer) && OnTrack(peer, roots, udts, toResolve)
      modifies this`udts
      ensures OnTrack(peer, roots, udts, nextResolve)
      ensures multiset(udts.Keys) == multiset(old(udts).Keys) + fetched
      ensures old(udts).Keys <= udts.Keys && (nextResolve != {} ==> old(udts).Keys < udts.Keys)
    {
      hide Fetch, OnTrack, Progressive;
      nextResolve, fetched := {}, multiset{};
      var todo := toResolve;
      assert toResolve + {} == toResolve;
      while todo != {}
        invariant OnTrack(peer, roots, udts, todo + nextResolve)
        invariant multiset(udts.Keys) == multiset(old(udts).Keys) + fetched
        invariant old(udts).Keys <= udts.Keys && (nextResolve != {} ==> old(udts).Keys < udts.Keys)
        decreases todo
      {
        var typeId :| typeId in todo;
        TakeOne(todo, nextResolve, typeId);
        todo := todo - {typeId};
        var found;
        ghost var one;
        found, one := ResolveType(peer, typeId, roots, todo + nextResolve);
        Regroup3(todo, nextResolve, found);
        nextResolve := nextResolve + found;
        fetched := fetched + one;
      }
      assert {} + nextResolve == nextResolve;
    }

    // The worklist. Whatever the type graph and however many fetches fail, it stops: a round that
    // leaves work for the next one has added one of at most 4096 keys.
    method ResolveUdts(peer: Peer, tags: seq<TagInfo>) returns (ghost fetched: multiset<uint16>)
      requires Progressive(peer) && AllSmall(tags) && udts == map[]
      modifies this`udts
      ensures Resolved(peer, StructTypes(tags), udts) && NoneUnfetchable(peer, udts)
      ensures fetched == multiset(udts.Keys)
    {
      hide Fetch, OnTrack, Progressive;
      ghost var roots := StructTypes(tags);
      StructTypesSmall(tags);
      OnTrackAtStart(peer, roots);
      fetched := multiset{};
      var toResolve := CollectStructTypes(tags);
      while toResolve != {}
        invariant OnTrack(peer, roots, udts, toResolve)
        invariant fetched == multiset(udts.Keys)
        decreases 4096 - |udts|, |toResolve|
      {
        ghost var before := udts.Keys;
        var next;
        ghost var more;
        next, more := ResolveRound(peer, toResolve, roots);
        TablesAreSmall(peer, roots, udts, next);
        Larger(before, udts.Keys);
        fetched := fetched + more;
        toResolve := next;
      }
      OnTrackAtEnd(peer, roots, udts);
      ResolvedIsFetchable(peer, roots, udts);
    }
  }

  lemma FirstCursor(peer: Peer, program: bytes)
    ensures CursorAt(peer, program, 0) == Some(0)
  {
  }

  lemma NoWrap(peer: Peer, program: bytes, j: nat)
    requires !Wraps(peer, program)
    ensures !WrapsAt(peer, program, j)
  {
  }

  // What the answer to request number j means for the next cursor, or for the end.
  lemma NextOrStop(peer: Peer, program: bytes, table: seq<TagRecord>, j: nat, cursor: uint16)
    requires Ends(peer, program) && CursorAt(peer, program, j) == Some(cursor)
    ensures CursorAt(peer, program, j + 1) == NextCursor(peer, program, cursor)
    ensures match peer(TagListRequest(program, cursor))
            case Err(_) => PageLost(peer, program)
            case Ok(resp) =>
              CipStatus(resp).status != 6 ==>
                !PageLost(peer, program) && ServedRows(peer, program, table) == RowsAt(peer, program, table, cursor)
  {
    hide TagListRequest, CipStatus, LastOnPage, Ends, ServedRows, PageLost;
    var reply := peer(TagListRequest(program, cursor));
    if reply.Err? || CipStatus(reply.value).status != 6 {
      NoMoreStops(peer, program, j);
      StoppedHere(peer, program, table, j);
    }
  }

  lemma Unanswered(peer: Peer, program: bytes, cursor: uint16)
    ensures !Answered(peer(TagListRequest(program, cursor))) ==> !AlwaysAnswers(peer, program)
  {
  }

  // The rows a good answer carries, and where the cursor goes after them.
  lemma RowsOf(peer: Peer, program: bytes, table: seq<TagRecord>, cursor: uint16) returns (n: nat)
    requires ServesTable(peer, program, table) && Answered(peer(TagListRequest(program, cursor)))
    ensures var cip, k := CipStatus(peer(TagListRequest(program, cursor)).value), Passed(table, cursor);
            && ValidTable(table)
            && k + n <= |table| && cip.data == EncodeRecords(table[k..][..n])
            && (cip.status == 0 ==> k + n == |table|)
            && (cip.status == 6 ==> n > 0 && Passed(table, table[k + n - 1].id + 1) == k + n)
  {
    hide TagListRequest, CipStatus, EncodeRecords, Passed;
    var reply := peer(TagListRequest(program, cursor));
    assert GoodPage(reply, table, cursor);
    var cip, k := CipStatus(reply.value), Passed(table, cursor);
    if cip.status == 0 {
      n := |table| - k;
      assert table[k..][..n] == table[k..];
    } else {
      n :| 1 <= n && k + n <= |table| && cip.data == EncodeRecords(table[k..][..n]);
      CursorAfter(table, k, n);
    }
  }

  // The tags and the program names gathered so far are those of the table's first k rows.
  ghost predicate Initial(
    program: bytes, table: seq<TagRecord>, k: nat, tags: seq<TagInfo>, before: seq<bytes>, after: seq<bytes>)
    requires k <= |table|
  {
    tags == Visible(program, table[..k]) && after == before + Programs(program, table[..k])
  }

  lemma AddPage(
    program: bytes, table: seq<TagRecord>, k: nat, n: nat, tags: seq<TagInfo>, page: seq<TagInfo>,
    before: seq<bytes>, mid: seq<bytes>, after: seq<bytes>)
    requires k + n <= |table| && Initial(program, table, k, tags, before, mid)
    requires Visible(program, table[..k + n]) == Visible(program, table[..k]) + page
    requires after == mid + Programs(program, table[k..][..n])
    ensures Initial(program, table, k + n, tags + page, before, after)
  {
    hide Visible, Programs;
    assert table[..k + n] == table[..k] + table[k..][..n];
    VisibleAppend(program, table[..k], table[k..][..n]);
    Regroup(before, Programs(program, table[..k]), Programs(program, table[k..][..n]));
  }

  // One round of the parser.
  lemma ParseStep(data: bytes, pos: nat, program: bytes, soFar: Parsed)
    ensures ParsePacket(data, pos, program, soFar)
         == match EntryAt(data, pos, program)
            case End => soFar
            case Cut(id) => soFar.(last := id)
            case Whole(tag, name, size) =>
              ParsePacket(data, pos + size, program,
                          Parsed(soFar.tags + Shown(tag), soFar.programs + Announced(program, name), tag.instanceId))
  {
  }

  lemma ScopeStart(program: bytes, table: seq<TagRecord>)
    ensures Passed(table, 0) == 0 && Visible(program, table[..0]) == [] && Programs(program, table[..0]) == []
  {
  }

  // What one page adds.
  lemma PageRead(program: bytes, table: seq<TagRecord>, k: nat, n: nat, data: bytes)
    requires k + n <= |table| && data == EncodeRecords(table[k..][..n])
    requires ValidTable(table)
    ensures var p := ParsePacket(data, 0, program, Parsed([], [], 0));
            && Visible(program, table[..k + n]) == Visible(program, table[..k]) + p.tags
            && p.programs == Programs(program, table[k..][..n])
            && Programs(program, table[..k + n]) == Programs(program, table[..k]) + p.programs
            && (n > 0 ==> p.last == table[k + n - 1].id)
  {
    hide ParsePacket, EncodeRecords, Visible, Programs;
    var page := table[k..][..n];
    assert data[0..] == data;
    ParseEncoded(data, 0, program, page, Parsed([], [], 0));
    assert page == table[k..k + n];
    assert table[..k + n] == table[..k] + page;
    VisibleAppend(program, table[..k], page);
    assert n > 0 ==> page[n - 1] == table[k + n - 1];
    assert [] + Visible(program, page) == Visible(program, page);
    assert [] + Programs(program, page) == Programs(program, page);
  }

  method CollectStructTypes(tags: seq<TagInfo>) returns (types: set<uint16>)
    ensures types == StructTypes(tags)
  {
    types := {};
    assert tags[0..] == tags;
    for i := 0 to |tags|
      invariant StructTypes(tags) == types + StructTypes(tags[i..])
    {
      assert tags[i..][1..] == tags[i + 1..];
      if tags[i].isStruct {
        types := types + {tags[i].dataTypeValue};
      }
    }
  }
}
