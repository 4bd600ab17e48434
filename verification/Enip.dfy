// EtherNet/IP encapsulation, Common Packet Format items and CIP reply headers
// (CIP Networks Library, Volume 2, sections 2-3 and 2-6).
module Enip {
  import opened Bytes

  const REGISTER_SESSION: uint16 := 0x0065
  const UNREGISTER_SESSION: uint16 := 0x0066
  const SEND_RR_DATA: uint16 := 0x006F
  const SEND_UNIT_DATA: uint16 := 0x0070

  // ---- the encapsulation header ----

  function Zeros(n: nat): (z: bytes)
    ensures |z| == n
  {
    seq(n, _ => 0)
  }

  // The length field is 16 bits wide.
  function Frame(command: uint16, session: uint32, data: bytes): (f: bytes)
    ensures |f| == 24 + |data|
  {
    LE16(command) + LE16(ToU16(|data|)) + LE32(session) + Zeros(16) + data
  }

  method BuildEnipHeader(command: uint16, session: uint32, data: bytes) returns (hdr: bytes)
    ensures hdr == Frame(command, session, data)
  {
    hdr := LE16(command);
    hdr := hdr + LE16(ToU16(|data|));
    hdr := hdr + LE32(session);
    hdr := hdr + LE32(0);
    for i := 0 to 8
      invariant hdr == LE16(command) + LE16(ToU16(|data|)) + LE32(session) + Zeros(4 + i)
    {
      hdr := hdr + [0];
    }
    hdr := hdr + LE32(0);
    assert Zeros(12) + LE32(0) == Zeros(16);
    hdr := hdr + data;
  }

  // ---- receiving from a byte stream ----

  // The receiving side of a TCP socket. `deliveries` holds what the network will hand over, in the
  // portions it happens to arrive in; an empty portion stands for a recv that fails or times out,
  // and after the last portion the peer has closed the stream.
  class Socket {
    var deliveries: seq<bytes>

    constructor (arriving: seq<bytes>)
      ensures deliveries == arriving
    {
      deliveries := arriving;
    }

    ghost function Pending(): bytes
      reads this
    {
      Flatten(deliveries)
    }

    // recv into buf[at..at + want]: how many bytes were stored, 0 for a failure.
    method Recv(buf: array<uint8>, at: nat, want: nat) returns (n: nat)
      requires 0 < want && at + want <= buf.Length
      modifies this, buf
      ensures n <= want
      ensures buf[..at] == old(buf[..at])
      ensures buf[at..at + n] + Pending() == old(Pending())
      ensures n == 0 <==> old(deliveries) == [] || old(deliveries)[0] == []
      ensures n == 0 && NoFailure(old(deliveries)) ==> old(Pending()) == []
      ensures NoFailure(old(deliveries)) ==> NoFailure(deliveries)
    {
      if deliveries == [] {
        return 0;
      }
      var head, tail := deliveries[0], deliveries[1..];
      n := Min(want, |head|);
      forall k | 0 <= k < n {
        buf[at + k] := head[k];
      }
      assert buf[at..at + n] == head[..n];
      if n == |head| {
        deliveries := tail;
        assert head[..n] == head;
      } else {
        deliveries := [head[n..]] + tail;
        assert deliveries[1..] == tail;
        assert head[..n] + (head[n..] + Flatten(tail)) == head + Flatten(tail);
      }
    }

    // Exactly `count` bytes, or an exception. When no recv fails it succeeds as soon as enough
    // bytes are on their way, whatever portions they come in, and takes none of the bytes after.
    method RecvExact(count: nat) returns (r: Result<bytes>)
      modifies this
      ensures r.Ok? ==> |r.value| == count && r.value + Pending() == old(Pending())
      ensures NoFailure(old(deliveries)) ==> NoFailure(deliveries)
      ensures NoFailure(old(deliveries)) ==> (r.Ok? <==> count <= |old(Pending())|)
    {
      var buf := new uint8[count];
      var received := 0;
      assert buf[..0] + Pending() == old(Pending());
      while received < count
        invariant received <= count
        invariant fresh(buf)
        invariant buf[..received] + Pending() == old(Pending())
        invariant NoFailure(old(deliveries)) ==> NoFailure(deliveries)
      {
        ghost var got, left := buf[..received], Pending();
        var n := Recv(buf, received, count - received);
        if n == 0 {
          return Err(ConnectionLost);
        }
        ghost var part := buf[received..received + n];
        assert buf[..received + n] == got + part;
        Regroup(got, part, Pending());
        assert got + part + Pending() == got + left;
        received := received + n;
      }
      assert buf[..count] == buf[..];
      r := Ok(buf[..]);
    }

    // One encapsulated message: the bytes returned and the bytes left are those of TakeFrame on the
    // stream as a whole.
    method RecvEnip() returns (r: Result<bytes>)
      modifies this
      ensures r.Ok? ==> TakeFrame(old(Pending())) == Some((r.value, Pending()))
      ensures NoFailure(old(deliveries)) ==> NoFailure(deliveries)
      ensures NoFailure(old(deliveries)) ==> (r.Ok? <==> TakeFrame(old(Pending())).Some?)
    {
      ghost var stream := Pending();
      var header :- RecvExact(24);
      var length := ReadU16(header, 2);
      TakeFrameOf(header, [], Pending());
      if length > 0 {
        ghost var rest := Pending();
        assert |rest| < length ==> TakeFrame(stream).None?;
        var payload :- RecvExact(length);
        TakeFrameOf(header, payload, Pending());
        assert header + payload + Pending() == stream;
        return Ok(header + payload);
      }
      assert header + [] == header;
      r := Ok(header);
    }
  }

  lemma TakeFrameOf(header: bytes, payload: bytes, rest: bytes)
    requires |header| == 24
    ensures |payload| == ReadU16(header, 2) ==> TakeFrame(header + payload + rest) == Some((header + payload, rest))
    ensures TakeFrame(header + rest).None? <==> |rest| < ReadU16(header, 2)
  {
  }

  // No recv fails before the peer closes the stream.
  predicate NoFailure(deliveries: seq<bytes>) {
    deliveries == [] || (deliveries[0] != [] && NoFailure(deliveries[1..]))
  }

  // The first message of a stream and what follows it.
  function TakeFrame(stream: bytes): Option<(bytes, bytes)> {
    if |stream| < 24 then None
    else
      var size := 24 + ReadU16(stream, 2);
      if |stream| < size then None else Some((stream[..size], stream[size..]))
  }

  function TakeFrames(stream: bytes, n: nat): Option<(seq<bytes>, bytes)> {
    if n == 0 then Some(([], stream))
    else
      match TakeFrame(stream)
      case None => None
      case Some((f, rest)) =>
        match TakeFrames(rest, n - 1)
        case None => None
        case Some((more, after)) => Some(([f] + more, after))
  }

  datatype Message = Message(command: uint16, session: uint32, data: bytes)

  function FrameOf(m: Message): bytes { Frame(m.command, m.session, m.data) }

  function FramesOf(ms: seq<Message>): seq<bytes> {
    if ms == [] then [] else [FrameOf(ms[0])] + FramesOf(ms[1..])
  }

  lemma TakeEncodedFrame(m: Message, after: bytes)
    requires |m.data| < 0x1_0000
    ensures TakeFrame(FrameOf(m) + after) == Some((FrameOf(m), after))
  {
  }

  lemma TakeFramesCons(m: Message, rest: bytes, n: nat)
    requires |m.data| < 0x1_0000 && TakeFrames(rest, n).Some?
    ensures TakeFrames(FrameOf(m) + rest, n + 1)
         == Some(([FrameOf(m)] + TakeFrames(rest, n).value.0, TakeFrames(rest, n).value.1))
  {
    TakeEncodedFrame(m, rest);
  }

  // Repeated reads give back exactly the messages sent, and leave what follows them untouched.
  lemma {:induction false} StreamReassembly(ms: seq<Message>, after: bytes)
    requires forall i | 0 <= i < |ms| :: |ms[i].data| < 0x1_0000
    ensures TakeFrames(Flatten(FramesOf(ms)) + after, |ms|) == Some((FramesOf(ms), after))
  {
    if ms == [] {
      assert Flatten(FramesOf(ms)) + after == after;
    } else {
      var rest := Flatten(FramesOf(ms[1..])) + after;
      assert FramesOf(ms)[1..] == FramesOf(ms[1..]) && |ms[1..]| == |ms| - 1;
      assert Flatten(FramesOf(ms)) + after == FrameOf(ms[0]) + rest;
      StreamReassembly(ms[1..], after);
      TakeFramesCons(ms[0], rest, |ms| - 1);
    }
  }

  // One receive after the other. Whatever portions the bytes of these messages arrive in, and whatever
  // follows them, the frames come out as they were sent and the rest stays where it is.
  method RecvFrames(sock: Socket, n: nat, ghost ms: seq<Message>, ghost after: bytes) returns (frames: seq<bytes>)
    requires NoFailure(sock.deliveries) && n == |ms|
    requires forall i | 0 <= i < |ms| :: |ms[i].data| < 0x1_0000
    requires sock.Pending() == Flatten(FramesOf(ms)) + after
    modifies sock
    ensures frames == FramesOf(ms) && sock.Pending() == after && NoFailure(sock.deliveries)
  {
    hide Flatten, TakeFrame, NoFailure, FrameOf;
    frames := [];
    StreamReassembly(ms, after);
    assert [] + FramesOf(ms) == FramesOf(ms);
    for i := 0 to n
      invariant NoFailure(sock.deliveries) && TakeFrames(sock.Pending(), n - i).Some?
      invariant frames + TakeFrames(sock.Pending(), n - i).value.0 == FramesOf(ms)
      invariant TakeFrames(sock.Pending(), n - i).value.1 == after
    {
      TakeFramesStep(sock.Pending(), n - i);
      var frame := sock.RecvEnip();
      Regroup(frames, [frame.value], TakeFrames(sock.Pending(), n - i - 1).value.0);
      frames := frames + [frame.value];
    }
    assert frames + [] == frames;
  }

  lemma TakeFramesStep(stream: bytes, n: nat)
    requires n > 0 && TakeFrames(stream, n).Some?
    ensures TakeFrame(stream).Some?
    ensures var (f, rest) := TakeFrame(stream).value;
            && TakeFrames(rest, n - 1).Some?
            && TakeFrames(stream, n).value == ([f] + TakeFrames(rest, n - 1).value.0, TakeFrames(rest, n - 1).value.1)
  {
    hide TakeFrame;
  }

  // ---- Common Packet Format ----

  datatype Item = Item(typeId: uint16, data: bytes)

  function EncodeItems(items: seq<Item>): bytes
    requires forall i | i in items :: |i.data| < 0x1_0000
  {
    if items == [] then []
    else
      assert items[0] in items;
      LE16(items[0].typeId) + LE16(|items[0].data|) + items[0].data + EncodeItems(items[1..])
  }

  // Interface handle, timeout, item count, items.
  function EncodePacket(items: seq<Item>): bytes
    requires |items| < 0x1_0000 && forall i | i in items :: |i.data| < 0x1_0000
  {
    LE32(0) + LE16(0) + LE16(|items|) + EncodeItems(items)
  }

  // What one round of the parsers' loop finds: no whole item header, the wanted item, or another
  // item to step over.
  datatype Round = Stop | Hit(item: Result<bytes>) | Miss(size: nat)

  function LookAt(payload: bytes, offset: nat, wanted: uint16, least: nat): Round {
    if offset + 4 > |payload| then Stop
    else
      var typeId := ReadU16(payload, offset);
      var length := ReadU16(payload, offset + 2);
      var start := offset + 4;
      if typeId == wanted && length >= least then
        Hit(if start + length <= |payload| then Ok(payload[start..start + length]) else Err(Overrun))
      else Miss(4 + length)
  }

  // The search the reply parsers run: the first of the next `count` items with the wanted type and
  // at least `least` bytes. None when no item is left, an error when the item found runs past the
  // payload.
  function Scan(payload: bytes, offset: nat, count: nat, wanted: uint16, least: nat): Option<Result<bytes>>
    decreases count
  {
    if count == 0 then None
    else match LookAt(payload, offset, wanted, least)
      case Stop => None
      case Hit(item) => Some(item)
      case Miss(size) => Scan(payload, offset + size, count - 1, wanted, least)
  }

  function RRData(payload: bytes): Result<bytes> {
    if |payload| < 8 then Err(TooShort)
    else match Scan(payload, 8, ReadU16(payload, 6), 0xB2, 0)
      case None => Err(NoDataItem)
      case Some(r) => r
  }

  // A connected data item starts with a 2-byte sequence count, which is dropped.
  function UnitData(payload: bytes): Result<bytes> {
    if |payload| < 8 then Err(TooShort)
    else Unsequenced(Scan(payload, 8, ReadU16(payload, 6), 0xB1, 2))
  }

  function Unsequenced(found: Option<Result<bytes>>): Result<bytes> {
    match found
    case None => Ok([])
    case Some(r) => if r.Err? then r else if |r.value| < 2 then Err(TooShort) else Ok(r.value[2..])
  }

  // The loop both parsers contain.
  method ScanItems(payload: bytes, wanted: uint16, least: nat) returns (found: Option<Result<bytes>>)
    requires |payload| >= 8
    ensures found == Scan(payload, 8, ReadU16(payload, 6), wanted, least)
  {
    var count: nat := ReadU16(payload, 6);
    var offset: nat := 8;
    for i := 0 to count
      invariant Scan(payload, 8, count, wanted, least) == Scan(payload, offset, count - i, wanted, least)
    {
      match LookAt(payload, offset, wanted, least)
      case Stop => return None;
      case Hit(item) => return Some(item);
      case Miss(size) => offset := offset + size;
    }
    found := None;
  }

  method ParseSendRRResponse(payload: bytes) returns (r: Result<bytes>)
    ensures r == RRData(payload)
  {
    if |payload| < 8 {
      return Err(TooShort);
    }
    var found := ScanItems(payload, 0xB2, 0);
    if found.None? {
      return Err(NoDataItem);
    }
    r := found.value;
  }

  method ParseSendUnitResponse(payload: bytes) returns (r: Result<bytes>)
    ensures r == UnitData(payload)
  {
    if |payload| < 8 {
      return Err(TooShort);
    }
    var found := ScanItems(payload, 0xB1, 2);
    r := Unsequenced(found);
  }

  function FirstItem(items: seq<Item>, wanted: uint16, least: nat): Option<bytes> {
    if items == [] then None
    else if items[0].typeId == wanted && |items[0].data| >= least then Some(items[0].data)
    else FirstItem(items[1..], wanted, least)
  }

  lemma LookAtItem(payload: bytes, offset: nat, it: Item, more: bytes, wanted: uint16, least: nat)
    requires |it.data| < 0x1_0000 && offset <= |payload|
    requires payload[offset..] == LE16(it.typeId) + LE16(|it.data|) + it.data + more
    ensures LookAt(payload, offset, wanted, least)
         == if it.typeId == wanted && |it.data| >= least then Hit(Ok(it.data)) else Miss(4 + |it.data|)
    ensures offset + 4 + |it.data| <= |payload| && payload[offset + 4 + |it.data|..] == more
  {
    var rest, n := payload[offset..], |it.data|;
    assert payload[offset..offset + 2] == rest[..2] == LE16(it.typeId);
    assert payload[offset + 2..offset + 4] == rest[2..4] == LE16(n);
    assert payload[offset + 4..offset + 4 + n] == rest[4..4 + n] == it.data;
    assert payload[offset + 4 + n..] == rest[4 + n..] == more;
    ReadU16OfLE16(payload, offset, it.typeId);
    ReadU16OfLE16(payload, offset + 2, n);
  }

  lemma {:induction false} ScanEncoded(payload: bytes, offset: nat, items: seq<Item>, wanted: uint16, least: nat)
    requires forall i | i in items :: |i.data| < 0x1_0000
    requires offset <= |payload| && payload[offset..] == EncodeItems(items)
    ensures Scan(payload, offset, |items|, wanted, least)
         == match FirstItem(items, wanted, least) case None => None case Some(d) => Some(Ok(d))
    decreases |items|
  {
    hide LookAt, LE16, LE32;
    if items != [] {
      assert items[0] in items;
      LookAtItem(payload, offset, items[0], EncodeItems(items[1..]), wanted, least);
      ScanEncoded(payload, offset + 4 + |items[0].data|, items[1..], wanted, least);
    }
  }

  lemma PacketHeader(items: seq<Item>)
    requires |items| < 0x1_0000 && forall i | i in items :: |i.data| < 0x1_0000
    ensures var p := EncodePacket(items);
            |p| >= 8 && ReadU16(p, 6) == |items| && p[8..] == EncodeItems(items)
  {
  }

  // On every well-formed item list the parsers return the first data item, wherever it stands.
  lemma ParsersFindTheirItem(items: seq<Item>)
    requires |items| < 0x1_0000 && forall i | i in items :: |i.data| < 0x1_0000
    ensures RRData(EncodePacket(items))
         == match FirstItem(items, 0xB2, 0) case None => Err(NoDataItem) case Some(d) => Ok(d)
    ensures FirstItem(items, 0xB1, 2).Some? ==> |FirstItem(items, 0xB1, 2).value| >= 2
    ensures UnitData(EncodePacket(items))
         == match FirstItem(items, 0xB1, 2) case None => Ok([]) case Some(d) => Ok(d[2..])
  {
    PacketHeader(items);
    ScanEncoded(EncodePacket(items), 8, items, 0xB2, 0);
    ScanEncoded(EncodePacket(items), 8, items, 0xB1, 2);
    FirstItemIsLongEnough(items, 0xB1, 2);
  }

  lemma {:induction false} FirstItemIsLongEnough(items: seq<Item>, wanted: uint16, least: nat)
    ensures FirstItem(items, wanted, least).Some? ==> |FirstItem(items, wanted, least).value| >= least
  {
    if items != [] { FirstItemIsLongEnough(items[1..], wanted, least); }
  }

  // ---- the packets the client sends ----

  function UnitPacket(connectionId: uint32, sequence: uint16, cip: bytes): bytes
    requires |cip| + 2 < 0x1_0000
  {
    EncodePacket([Item(0xA1, LE32(connectionId)), Item(0xB1, LE16(sequence) + cip)])
  }

  function RRPacket(frame: bytes): bytes
    requires |frame| < 0x1_0000
  {
    EncodePacket([Item(0x00, []), Item(0xB2, frame)])
  }

  lemma UnitPacketItems(connectionId: uint32, sequence: uint16, cip: bytes)
    requires |cip| + 2 < 0x1_0000
    ensures UnitPacket(connectionId, sequence, cip)
         == LE32(0) + LE16(0) + LE16(2) + LE16(0xA1) + LE16(4) + LE32(connectionId)
            + LE16(0xB1) + LE16(|cip| + 2) + (LE16(sequence) + cip)
    ensures |UnitPacket(connectionId, sequence, cip)| == 22 + |cip|
  {
    var a, b := Item(0xA1, LE32(connectionId)), Item(0xB1, LE16(sequence) + cip);
    assert [a, b][1..] == [b] && [b][1..] == [];
    assert EncodeItems([b]) == LE16(0xB1) + LE16(|cip| + 2) + (LE16(sequence) + cip);
    assert EncodeItems([a, b]) == LE16(0xA1) + LE16(4) + LE32(connectionId) + EncodeItems([b]);
  }

  lemma RRPacketItems(frame: bytes)
    requires |frame| < 0x1_0000
    ensures RRPacket(frame) == LE32(0) + LE16(0) + LE16(2) + LE16(0x00) + LE16(0) + LE16(0xB2) + LE16(|frame|) + frame
    ensures |RRPacket(frame)| == 16 + |frame|
  {
    var a, b := Item(0x00, []), Item(0xB2, frame);
    assert [a, b][1..] == [b] && [b][1..] == [];
    assert EncodeItems([b]) == LE16(0xB2) + LE16(|frame|) + frame;
  }

  // A CIP message sent over the connection arrives unchanged: through the frame, the packet and
  // the sequence count, and whatever follows it on the stream.
  lemma UnitEndToEnd(session: uint32, connectionId: uint32, sequence: uint16, cip: bytes, after: bytes)
    requires |cip| <= 0xFFFF - 22
    ensures var sent := Frame(SEND_UNIT_DATA, session, UnitPacket(connectionId, sequence, cip));
            && TakeFrame(sent + after) == Some((sent, after))
            && UnitData(sent[24..]) == Ok(cip)
  {
    var packet := UnitPacket(connectionId, sequence, cip);
    UnitPacketItems(connectionId, sequence, cip);
    TakeEncodedFrame(Message(SEND_UNIT_DATA, session, packet), after);
    assert Frame(SEND_UNIT_DATA, session, packet)[24..] == packet;
    var items := [Item(0xA1, LE32(connectionId)), Item(0xB1, LE16(sequence) + cip)];
    ParsersFindTheirItem(items);
    assert items[1..][0] == items[1];
    assert FirstItem(items, 0xB1, 2) == Some(LE16(sequence) + cip);
    assert (LE16(sequence) + cip)[2..] == cip;
  }

  lemma RREndToEnd(session: uint32, frame: bytes, after: bytes)
    requires |frame| <= 0xFFFF - 16
    ensures var sent := Frame(SEND_RR_DATA, session, RRPacket(frame));
            && TakeFrame(sent + after) == Some((sent, after))
            && RRData(sent[24..]) == Ok(frame)
  {
    var packet := RRPacket(frame);
    RRPacketItems(frame);
    TakeEncodedFrame(Message(SEND_RR_DATA, session, packet), after);
    assert Frame(SEND_RR_DATA, session, packet)[24..] == packet;
    var items := [Item(0x00, []), Item(0xB2, frame)];
    ParsersFindTheirItem(items);
    assert items[1..][0] == items[1];
    assert FirstItem(items, 0xB2, 0) == Some(frame);
  }

  // ---- CIP replies ----

  type FailCode = c: uint8 | c != 0 witness 0x08

  datatype CipResponse = CipResponse(status: uint8, extStatus: uint16, data: bytes)

  function CipStatus(resp: bytes): CipResponse {
    if |resp| < 4 then CipResponse(0xFF, 0, [])
    else
      var ext: int := resp[3];
      if ext > 0 && 4 + ext * 2 <= |resp| then CipResponse(resp[2], ReadU16(resp, 4), resp[4 + ext * 2..])
      else CipResponse(resp[2], 0, resp[4..])
  }

  method ParseCipStatus(resp: bytes) returns (r: CipResponse)
    ensures r == CipStatus(resp)
  {
    r := CipResponse(0xFF, 0, []);
    if |resp| < 4 {
      return;
    }
    r := r.(status := resp[2]);
    var extSize: int := resp[3];
    var dataOffset := 4;
    if extSize > 0 && 4 + extSize * 2 <= |resp| {
      r := r.(extStatus := ReadU16(resp, 4));
      dataOffset := 4 + extSize * 2;
    }
    if dataOffset < |resp| {
      r := r.(data := resp[dataOffset..]);
    }
  }

  // A reply as a device encodes it: service, reserved, status, extended status words, data.
  function Reply(service: uint8, status: uint8, ext: seq<uint16>, data: bytes): bytes
    requires |ext| < 0x100
  {
    [service, 0, status, |ext|] + Words(ext) + data
  }

  function Words(ws: seq<uint16>): (b: bytes)
    ensures |b| == 2 * |ws|
  {
    if ws == [] then [] else LE16(ws[0]) + Words(ws[1..])
  }

  lemma ReplyRoundTrip(service: uint8, status: uint8, ext: seq<uint16>, data: bytes)
    requires |ext| < 0x100
    ensures CipStatus(Reply(service, status, ext, data))
         == CipResponse(status, if ext == [] then 0 else ext[0], data)
  {
  }
}
