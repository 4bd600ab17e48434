// The EtherNet/IP session and the CIP connection on top of it: registering, opening with a fallback to
// the smaller connection size, sending, and closing.
module EipConnections {
  import opened Bytes
  import opened Enip
  import Route
  import opened TrendPlc

  // ---- requests to the connection manager ----

  const MANAGER: bytes := [0x02, 0x20, 0x06, 0x24, 0x01, 0x0A, 0x0E]
  const ROUTER: bytes := [0x20, 0x02, 0x24, 0x01]

  // A path whose length in words fits into one byte.
  type Path = p: bytes | |p| % 2 == 0 && |p| <= 510

  function OpenHeader(large: bool, otId: uint32, toId: uint32, serial: uint16): (b: bytes)
    ensures |b| == 28
  {
    [if large then 0x5B else 0x54] + MANAGER + LE32(otId) + LE32(toId) + LE16(serial) + LE16(0x1234) + LE32(1)
    + [3, 0, 0, 0]
  }

  function OpenParams(large: bool): (b: bytes)
    ensures |b| == if large then 16 else 12
  {
    if large then LE32(0x0020_1234) + LE32(0x4200_0FA2) + LE32(0x0020_4001) + LE32(0x4200_0FA2)
    else LE32(0x0020_1234) + LE16(0x43F8) + LE32(0x0020_4001) + LE16(0x43F8)
  }

  function OpenCip(large: bool, otId: uint32, toId: uint32, serial: uint16, path: Path): (b: bytes)
    ensures |b| <= 556
  {
    OpenHeader(large, otId, toId, serial) + OpenParams(large) + [0xA3, |path| / 2] + path
  }

  function CloseCip(serial: uint16, path: Path): (b: bytes)
    ensures |b| <= 528
  {
    [0x4E] + MANAGER + LE16(serial) + LE16(0x1234) + LE32(1) + [|path| / 2, 0] + path
  }

  // ---- what the device makes of them ----

  // A connection is told from others by its serial number, and the vendor and serial number of who opened it.
  datatype Triad = Triad(serial: uint16, vendor: uint16, originator: uint32)

  // One direction of a connection.
  datatype Flow = Flow(pointToPoint: bool, variable: bool, size: nat)

  datatype OpenRequest = OpenRequest(
    otId: uint32, toId: uint32, triad: Triad, multiplier: uint8, sendRpi: uint32, send: Flow, replyRpi: uint32,
    reply: Flow, transport: uint8, path: bytes)

  datatype Asked =
    | Open(request: OpenRequest)
    | Shut(triad: Triad, path: bytes)
    | Other

  predicate ForManager(cip: bytes, service: uint8) { |cip| >= 8 && cip[0] == service && cip[1..8] == MANAGER }

  // Large parameters carry the size in 16 bits, standard ones in 9; above it come the kind of size and,
  // four bits higher up, the kind of connection.
  function LargeFlow(params: uint32): Flow {
    Flow(params / 0x2000_0000 % 4 == 2, params / 0x200_0000 % 2 == 1, params % 0x1_0000)
  }

  function StandardFlow(params: uint16): Flow {
    Flow(params / 0x2000 % 4 == 2, params / 0x200 % 2 == 1, params % 0x200)
  }

  function TriadAt(cip: bytes, at: nat): Triad
    requires at + 8 <= |cip|
  {
    Triad(ReadU16(cip, at), ReadU16(cip, at + 2), ReadU32(cip, at + 4))
  }

  function Understand(cip: bytes): Asked {
    if ForManager(cip, 0x5B) && |cip| >= 46 && |cip| == 46 + 2 * (cip[45] as int) then
      Open(OpenRequest(ReadU32(cip, 8), ReadU32(cip, 12), TriadAt(cip, 16), cip[24],
                       ReadU32(cip, 28), LargeFlow(ReadU32(cip, 32)), ReadU32(cip, 36), LargeFlow(ReadU32(cip, 40)),
                       cip[44], cip[46..]))
    else if ForManager(cip, 0x54) && |cip| >= 42 && |cip| == 42 + 2 * (cip[41] as int) then
      Open(OpenRequest(ReadU32(cip, 8), ReadU32(cip, 12), TriadAt(cip, 16), cip[24],
                       ReadU32(cip, 28), StandardFlow(ReadU16(cip, 32)),
                       ReadU32(cip, 34), StandardFlow(ReadU16(cip, 38)), cip[40], cip[42..]))
    else if ForManager(cip, 0x4E) && |cip| >= 18 && |cip| == 18 + 2 * (cip[16] as int) then
      Shut(TriadAt(cip, 8), cip[18..])
    else Other
  }

  function SizeOf(large: bool): nat { if large then 4002 else 504 }

  // This client.
  function Own(serial: uint16): Triad { Triad(serial, 0x1234, 1) }

  function OwnRequest(large: bool, otId: uint32, toId: uint32, serial: uint16, path: bytes): OpenRequest {
    var flow := Flow(true, true, SizeOf(large));
    OpenRequest(otId, toId, Own(serial), 3, 0x0020_1234, flow, 0x0020_4001, flow, 0xA3, path)
  }

  // The device reads out of an open request all that the client means, and the very size the client then
  // counts on: point to point, in both directions.
  lemma OpenRoundTrip(large: bool, otId: uint32, toId: uint32, serial: uint16, path: Path)
    ensures Understand(OpenCip(large, otId, toId, serial, path)) == Open(OwnRequest(large, otId, toId, serial, path))
  {
    var b := OpenCip(large, otId, toId, serial, path);
    var h, p := OpenHeader(large, otId, toId, serial), OpenParams(large);
    assert b[..28] == h && b[28..28 + |p|] == p;
    HeaderRead(b, large, otId, toId, serial);
    ParamsRead(b, large);
    hide LE16, LE32, ReadU16, ReadU32, OpenHeader, OpenParams, LargeFlow, StandardFlow, TriadAt;
    assert b[28 + |p|..] == [0xA3, |path| / 2] + path;
    assert b[28 + |p|] == 0xA3 && b[29 + |p|] == |path| / 2 && b[30 + |p|..] == path;
  }

  lemma HeaderRead(b: bytes, large: bool, otId: uint32, toId: uint32, serial: uint16)
    requires |b| >= 28 && b[..28] == OpenHeader(large, otId, toId, serial)
    ensures ForManager(b, if large then 0x5B else 0x54)
    ensures ReadU32(b, 8) == otId && ReadU32(b, 12) == toId && TriadAt(b, 16) == Own(serial) && b[24] == 3
  {
    var h := OpenHeader(large, otId, toId, serial);
    assert h[1..8] == MANAGER && h[8..12] == LE32(otId) && h[12..16] == LE32(toId);
    assert h[16..18] == LE16(serial) && h[18..20] == LE16(0x1234) && h[20..24] == LE32(1) && h[24] == 3;
    assert b[0] == h[0] && b[24] == h[24] && b[1..8] == h[1..8];
    assert b[8..12] == h[8..12] && b[12..16] == h[12..16];
    assert b[16..18] == h[16..18] && b[18..20] == h[18..20] && b[20..24] == h[20..24];
    hide LE16, LE32, ReadU16, ReadU32, OpenHeader;
    ReadU32OfLE32(b, 8, otId);
    ReadU32OfLE32(b, 12, toId);
    ReadU16OfLE16(b, 16, serial);
    ReadU16OfLE16(b, 18, 0x1234);
    ReadU32OfLE32(b, 20, 1);
  }

  lemma ParamsRead(b: bytes, large: bool)
    requires |b| >= 28 + |OpenParams(large)| && b[28..28 + |OpenParams(large)|] == OpenParams(large)
    ensures ReadU32(b, 28) == 0x0020_1234
    ensures large ==>
      LargeFlow(ReadU32(b, 32)) == LargeFlow(ReadU32(b, 40)) == Flow(true, true, 4002) && ReadU32(b, 36) == 0x0020_4001
    ensures !large ==>
      StandardFlow(ReadU16(b, 32)) == StandardFlow(ReadU16(b, 38)) == Flow(true, true, 504)
      && ReadU32(b, 34) == 0x0020_4001
  {
    hide ReadU16, ReadU32, LargeFlow, StandardFlow;
    if large { LargeParamsRead(b); } else { StandardParamsRead(b); }
  }

  lemma FirstField(b: bytes, at: nat, w: bytes, rest: bytes)
    requires at + |w| + |rest| <= |b| && b[at..at + |w| + |rest|] == w + rest
    ensures b[at..at + |w|] == w && b[at + |w|..at + |w| + |rest|] == rest
  {
    forall k | 0 <= k < |w| ensures b[at + k] == w[k] { assert b[at..at + |w| + |rest|][k] == (w + rest)[k]; }
    forall k | 0 <= k < |rest| ensures b[at + |w| + k] == rest[k] {
      assert b[at..at + |w| + |rest|][|w| + k] == (w + rest)[|w| + k];
    }
  }

  // Four fields one after the other.
  lemma FieldsAt(b: bytes, at: nat, w: bytes, x: bytes, y: bytes, z: bytes)
    requires var all := w + x + y + z; at + |all| <= |b| && b[at..at + |all|] == all
    ensures var (i, j, k) := (at + |w|, at + |w| + |x|, at + |w| + |x| + |y|);
            b[at..i] == w && b[i..j] == x && b[j..k] == y && b[k..k + |z|] == z
  {
    FirstField(b, at, w + x + y, z);
    FirstField(b, at, w + x, y);
    FirstField(b, at, w, x);
  }

  lemma LargeParamsRead(b: bytes)
    requires |b| >= 44 && b[28..44] == OpenParams(true)
    ensures ReadU32(b, 28) == 0x0020_1234 && ReadU32(b, 36) == 0x0020_4001
    ensures LargeFlow(ReadU32(b, 32)) == LargeFlow(ReadU32(b, 40)) == Flow(true, true, 4002)
  {
    hide LE32, ReadU32;
    FieldsAt(b, 28, LE32(0x0020_1234), LE32(0x4200_0FA2), LE32(0x0020_4001), LE32(0x4200_0FA2));
    ReadU32OfLE32(b, 28, 0x0020_1234);
    ReadU32OfLE32(b, 32, 0x4200_0FA2);
    ReadU32OfLE32(b, 36, 0x0020_4001);
    ReadU32OfLE32(b, 40, 0x4200_0FA2);
  }

  lemma StandardParamsRead(b: bytes)
    requires |b| >= 40 && b[28..40] == OpenParams(false)
    ensures ReadU32(b, 28) == 0x0020_1234 && ReadU32(b, 34) == 0x0020_4001
    ensures StandardFlow(ReadU16(b, 32)) == StandardFlow(ReadU16(b, 38)) == Flow(true, true, 504)
  {
    hide LE16, LE32, ReadU16, ReadU32;
    FieldsAt(b, 28, LE32(0x0020_1234), LE16(0x43F8), LE32(0x0020_4001), LE16(0x43F8));
    ReadU32OfLE32(b, 28, 0x0020_1234);
    ReadU16OfLE16(b, 32, 0x43F8);
    ReadU32OfLE32(b, 34, 0x0020_4001);
    ReadU16OfLE16(b, 38, 0x43F8);
  }

  lemma CloseRoundTrip(serial: uint16, path: Path)
    ensures Understand(CloseCip(serial, path)) == Shut(Own(serial), path)
  {
  }

  // ---- unconnected messages ----

  // A message for a device behind a route is wrapped with its length, padding and the route.
  function Wrapped(msg: bytes, route: bytes): bytes
    requires |route| <= 510
  {
    [0x52] + MANAGER + LE16(ToU16(|msg|)) + msg + (if |msg| % 2 == 1 then [0x00] else []) + [|route| / 2, 0x00] + route
  }

  function Unwrap(frame: bytes): Option<(bytes, bytes)> {
    if !ForManager(frame, 0x52) || |frame| < 10 then None
    else
      var n := ReadU16(frame, 8);
      var at := 10 + n + n % 2;
      if at + 2 > |frame| || |frame| != at + 2 + 2 * (frame[at] as int) then None
      else Some((frame[10..10 + n], frame[at + 2..]))
  }

  lemma UnwrapRoundTrip(msg: bytes, route: Path)
    requires |msg| < 0x1_0000
    ensures Unwrap(Wrapped(msg, route)) == Some((msg, route))
  {
    var b, n := Wrapped(msg, route), |msg|;
    var at := 10 + n + n % 2;
    WrappedParts(msg, route);
    hide LE16, ReadU16, Wrapped;
    ReadU16OfLE16(b, 8, n);
    assert b[at] == b[at..][0] && b[at + 2..] == b[at..][2..];
  }

  lemma WrappedParts(msg: bytes, route: Path)
    requires |msg| < 0x1_0000
    ensures var b, n := Wrapped(msg, route), |msg|;
            var at := 10 + n + n % 2;
            && |b| == at + 2 + |route| && b[0] == 0x52 && b[1..8] == MANAGER && b[8..10] == LE16(n)
            && b[10..10 + n] == msg && b[at..] == [|route| / 2, 0x00] + route
  {
    hide LE16;
    var head := [0x52] + MANAGER + LE16(|msg|);
    var tail := (if |msg| % 2 == 1 then [0x00] else []) + ([|route| / 2, 0x00] + route);
    assert Wrapped(msg, route) == head + msg + tail;
    assert head[1..8] == MANAGER && head[8..10] == LE16(|msg|);
  }

  // The frame of sendUnconnected: the message alone on a direct connection, wrapped otherwise.
  method BuildUnconnected(msg: bytes, route: seq<Route.Hop>) returns (r: Result<bytes>)
    requires Route.RoutePath(route).Ok? ==> |Route.RoutePath(route).value| <= 510
    ensures route == [] ==> r == Ok(msg)
    ensures route != [] ==>
      r == match Route.RoutePath(route) case Ok(path) => Ok(Wrapped(msg, path)) case Err(e) => Err(e)
  {
    if route == [] {
      return Ok(msg);
    }
    hide LE16, Route.RoutePath;
    var path :- Route.BuildRoutePath(route);
    var frame: bytes := [0x52];
    frame := frame + [0x02, 0x20, 0x06, 0x24, 0x01, 0x0A, 0x0E];
    frame := frame + LE16(ToU16(|msg|));
    frame := frame + msg;
    if |msg| % 2 == 1 {
      frame := frame + [0x00];
    } else {
      assert frame + [] == frame;
    }
    frame := frame + [ToU8(|path| / 2)];
    frame := frame + [0x00];
    assert forall a: bytes, x: uint8 :: a + [x] + [0x00] == a + [x, 0x00];
    r := Ok(frame + path);
  }

  // ---- the device ----

  datatype Opened = Opened(triad: Triad, sendSize: nat, replySize: nat, path: bytes)

  // A message as it arrives: on which connection and with which sequence count, or without a connection
  // and with the route it is to be sent on.
  datatype Arrival = Arrival(otId: uint32, sequence: uint16, cip: bytes) | Forwarded(cip: bytes, route: bytes)

  type Connected = a: Arrival | a.Arrival? witness Arrival(0, 0, [])

  // One TCP connection to a device: its session, the CIP connections the device holds, the messages that
  // have reached it, and its trends.
  datatype Peer = Peer(session: uint32, open: map<uint32, Opened>, arrived: seq<Arrival>, trends: Table)

  // What becomes of a request: let through (with the id the device picks for a session or connection),
  // refused, or lost before it arrives. Closing is always carried out.
  datatype Verdict = Accept(id: uint32) | Refuse(code: FailCode) | Lost

  // What the device makes of a message that reaches it, when so many have reached it before: its trends
  // afterwards, and the answer, unless that is lost.
  type Answer = r: Result<bytes> | r.Ok? ==> |r.value| <= 0xFFFF - 22 witness Ok([])
  type Application = (nat, Table, Arrival) -> (Table, Answer)

  function Reached(p: Peer, a: Arrival, app: Application): (Peer, Answer) {
    var (trends, answer) := app(|p.arrived|, p.trends, a);
    (p.(arrived := p.arrived + [a], trends := trends), answer)
  }

  function StatusFrame(command: uint16, status: uint32): (f: bytes)
    ensures |f| == 24
  {
    LE16(command) + LE16(0) + LE32(0) + LE32(status) + Zeros(12)
  }

  // Protocol version 1 without options is the only one there is.
  predicate IsVersionOne(data: bytes) { |data| == 4 && ReadU16(data, 0) == 1 && ReadU16(data, 2) == 0 }

  function Registered(p: Peer, data: bytes, v: Verdict): (r: (Peer, Result<bytes>))
    ensures r.1.Ok? ==> |r.1.value| >= 24
  {
    if !IsVersionOne(data) then (p, Ok(StatusFrame(REGISTER_SESSION, 0x69)))
    else match v
    case Accept(id) =>
      if id == 0 || p.session != 0 then (p, Ok(StatusFrame(REGISTER_SESSION, 1)))
      else (p.(session := id), Ok(Frame(REGISTER_SESSION, id, LE16(1) + LE16(0))))
    case Refuse(code) => (p, Ok(StatusFrame(REGISTER_SESSION, code as int)))
    case Lost => (p, Err(ConnectionLost))
  }

  predicate InUse(open: map<uint32, Opened>, triad: Triad) { exists id | id in open :: open[id].triad == triad }

  function Without(open: map<uint32, Opened>, triad: Triad): map<uint32, Opened> {
    map id | id in open && open[id].triad != triad :: open[id]
  }

  // This client's open request goes through when the device picks a new id and does not know it by that
  // serial number yet.
  predicate Granted(open: map<uint32, Opened>, serial: uint16, v: Verdict) {
    v.Accept? && v.id != 0 && v.id !in open && !InUse(open, Own(serial))
  }

  // A message that is not wrapped is for the device itself.
  function Unwrapped(cip: bytes): Arrival {
    match Unwrap(cip)
    case Some((msg, route)) => Forwarded(msg, route)
    case None => Forwarded(cip, [])
  }

  // The connection manager's answer, as a CIP reply.
  function Managed(p: Peer, cip: bytes, v: Verdict, app: Application): (r: (Peer, Result<bytes>))
    ensures r.1.Ok? ==> |r.1.value| <= 0xFFFF - 22
    ensures r.0.session == p.session
  {
    match Understand(cip)
    case Open(q) =>
      (match v
       case Accept(id) =>
         if id == 0 || id in p.open || InUse(p.open, q.triad) then (p, Ok(Reply(0xD4, 0x01, [], [])))
         else (p.(open := p.open[id := Opened(q.triad, q.send.size, q.reply.size, q.path)]),
               Ok(Reply(0xD4, 0, [], LE32(id) + LE32(q.toId) + LE16(q.triad.serial))))
       case Refuse(code) => (p, Ok(Reply(0xD4, code, [], [])))
       case Lost => (p, Err(ConnectionLost)))
    case Shut(triad, _) => (p.(open := Without(p.open, triad)), Ok(Reply(0xCE, 0, [], [])))
    case Other =>
      (match v
       case Accept(_) => Reached(p, Unwrapped(cip), app)
       case Refuse(code) => (p, Ok(Reply(0xD2, code, [], [])))
       case Lost => (p, Err(ConnectionLost)))
  }

  // The first address item with a connection id and the first connected data item.
  function DecodeUnit(payload: bytes): Option<Connected> {
    if |payload| < 8 then None
    else Together(Scan(payload, 8, ReadU16(payload, 6), 0xA1, 4), Scan(payload, 8, ReadU16(payload, 6), 0xB1, 2))
  }

  function Together(address: Option<Result<bytes>>, data: Option<Result<bytes>>): Option<Connected> {
    match (address, data)
    case (Some(Ok(a)), Some(Ok(d))) =>
      if |a| == 4 && |d| >= 2 then Some(Arrival(ReadU32(a, 0), ReadU16(d, 0), d[2..])) else None
    case _ => None
  }

  function Delivered(p: Peer, a: Connected, v: Verdict, app: Application): (r: (Peer, Result<bytes>))
    ensures r.1.Ok? ==> |r.1.value| >= 24
  {
    if a.otId !in p.open then (p, Ok(StatusFrame(SEND_UNIT_DATA, 1)))
    else match v
      case Accept(_) =>
        (match Reached(p, a, app)
         case (after, Ok(answer)) =>
           (after, Ok(Frame(SEND_UNIT_DATA, p.session, UnitPacket(a.otId, a.sequence, answer))))
         case (after, Err(e)) => (after, Err(e)))
      case Refuse(code) => (p, Ok(StatusFrame(SEND_UNIT_DATA, code as int)))
      case Lost => (p, Err(ConnectionLost))
  }

  function ServedRR(p: Peer, payload: bytes, v: Verdict, app: Application): (r: (Peer, Result<bytes>))
    ensures r.1.Ok? ==> |r.1.value| >= 24
  {
    match RRData(payload)
    case Err(_) => (p, Ok(StatusFrame(SEND_RR_DATA, 3)))
    case Ok(cip) =>
      match Managed(p, cip, v, app)
      case (after, Ok(reply)) => (after, Ok(Frame(SEND_RR_DATA, p.session, RRPacket(reply))))
      case (after, Err(e)) => (after, Err(e))
  }

  // The commands the device knows; a frame for another session is turned away, and so is one with a status or
  // with options.
  function Served(p: Peer, frame: bytes, v: Verdict, app: Application): (r: (Peer, Result<bytes>))
    requires |frame| >= 24
    ensures r.1.Ok? ==> |r.1.value| >= 24
  {
    var command := ReadU16(frame, 0);
    if ReadU32(frame, 8) != 0 || ReadU32(frame, 20) != 0 then (p, Ok(StatusFrame(command, 3)))
    else if command == 0x65 then Registered(p, frame[24..], v)
    else if p.session == 0 || ReadU32(frame, 4) != p.session then (p, Ok(StatusFrame(command, 0x64)))
    else if command == 0x6F then ServedRR(p, frame[24..], v, app)
    else if command == 0x70 then
      match DecodeUnit(frame[24..])
      case None => (p, Ok(StatusFrame(command, 3)))
      case Some(a) => Delivered(p, a, v, app)
    else (p, Ok(StatusFrame(command, 1)))
  }

  // Unregistering gets no answer.
  function Unregistered(p: Peer, frame: bytes): Peer
    requires |frame| >= 24
  {
    if ReadU16(frame, 0) == 0x66 && ReadU32(frame, 4) == p.session then p.(session := 0) else p
  }

  class Device {
    const verdicts: nat -> Verdict
    const app: Application
    var clock: nat
    var peer: Peer

    constructor (peer: Peer, verdicts: nat -> Verdict, app: Application)
      ensures this.peer == peer && this.verdicts == verdicts && this.app == app && clock == 0
    {
      this.peer, this.verdicts, this.app := peer, verdicts, app;
      clock := 0;
    }

    // send and recvEnip.
    method Exchange(frame: bytes) returns (r: Result<bytes>)
      requires |frame| >= 24
      modifies this
      ensures clock == old(clock) + 1 && (peer, r) == Served(old(peer), frame, verdicts(old(clock)), app)
    {
      hide Served;
      var (after, answer) := Served(peer, frame, verdicts(clock), app);
      clock, peer, r := clock + 1, after, answer;
    }

    method Unregister(frame: bytes)
      requires |frame| >= 24
      modifies this
      ensures peer == Unregistered(old(peer), frame) && clock == old(clock)
    {
      peer := Unregistered(peer, frame);
    }
  }

  // ---- building the packets ----

  method BuildOpen(large: bool, otId: uint32, toId: uint32, serial: uint16, connPath: Path) returns (fo: bytes)
    ensures fo == OpenCip(large, otId, toId, serial, connPath)
  {
    hide LE16, LE32;
    fo := [if large then 0x5B else 0x54];
    fo := fo + [0x02, 0x20, 0x06, 0x24, 0x01, 0x0A, 0x0E];
    fo := fo + LE32(otId);
    fo := fo + LE32(toId);
    fo := fo + LE16(serial);
    fo := fo + LE16(0x1234);
    fo := fo + LE32(0x0000_0001);
    fo := fo + [0x03, 0, 0, 0];
    assert fo == OpenHeader(large, otId, toId, serial);
    var params: bytes := LE32(0x0020_1234);
    if large {
      params := params + LE32(0x4200_0FA2);
      params := params + LE32(0x0020_4001);
      params := params + LE32(0x4200_0FA2);
    } else {
      params := params + LE16(0x43F8);
      params := params + LE32(0x0020_4001);
      params := params + LE16(0x43F8);
    }
    fo := fo + params;
    fo := fo + [0xA3, ToU8(|connPath| / 2)];
    fo := fo + connPath;
  }

  method BuildRRPayload(frame: bytes) returns (payload: bytes)
    requires |frame| <= 0xFFFF - 16
    ensures payload == RRPacket(frame)
  {
    hide LE16, LE32, RRPacket;
    RRPacketItems(frame);
    payload := LE32(0);
    payload := payload + LE16(0);
    payload := payload + LE16(2);
    payload := payload + LE16(0x00);
    payload := payload + LE16(0);
    payload := payload + LE16(0xB2);
    payload := payload + LE16(ToU16(|frame|));
    payload := payload + frame;
  }

  method BuildClose(serial: uint16, connPath: Path) returns (fc: bytes)
    ensures fc == CloseCip(serial, connPath)
  {
    hide LE16, LE32;
    fc := [0x4E];
    fc := fc + [0x02, 0x20, 0x06, 0x24, 0x01, 0x0A, 0x0E];
    fc := fc + LE16(serial);
    fc := fc + LE16(0x1234);
    fc := fc + LE32(0x0000_0001);
    fc := fc + [ToU8(|connPath| / 2), 0x00];
    fc := fc + connPath;
  }

  method BuildUnitPayload(otId: uint32, sequence: uint16, msg: bytes) returns (payload: bytes)
    requires |msg| <= 0xFFFF - 22
    ensures payload == UnitPacket(otId, sequence, msg)
  {
    hide LE16, LE32, UnitPacket;
    UnitPacketItems(otId, sequence, msg);
    var withSequence := LE16(sequence);
    withSequence := withSequence + msg;
    payload := LE32(0);
    payload := payload + LE16(0);
    payload := payload + LE16(2);
    payload := payload + LE16(0xA1);
    payload := payload + LE16(4);
    payload := payload + LE32(otId);
    payload := payload + LE16(0xB1);
    payload := payload + LE16(ToU16(|withSequence|));
    payload := payload + withSequence;
  }

  // ---- what the exchanges come to ----

  lemma FrameFields(command: uint16, session: uint32, data: bytes)
    ensures var f := Frame(command, session, data);
            && ReadU16(f, 0) == command && ReadU32(f, 4) == session && f[24..] == data
            && ReadU32(f, 8) == 0 && ReadU32(f, 20) == 0
  {
  }

  lemma StatusFields(command: uint16, status: uint32)
    ensures ReadU32(StatusFrame(command, status), 8) == status
  {
  }

  lemma RRServed(p: Peer, cip: bytes, v: Verdict, app: Application)
    requires p.session != 0 && |cip| <= 0xFFFF - 16
    ensures Served(p, Frame(SEND_RR_DATA, p.session, RRPacket(cip)), v, app)
         == match Managed(p, cip, v, app)
            case (after, Ok(reply)) => (after, Ok(Frame(SEND_RR_DATA, p.session, RRPacket(reply))))
            case (after, Err(e)) => (after, Err(e))
  {
    hide Frame, RRPacket, Managed, RRData, ReadU16, ReadU32;
    FrameFields(SEND_RR_DATA, p.session, RRPacket(cip));
    RREndToEnd(p.session, cip, []);
  }

  lemma UnitDecoded(otId: uint32, sequence: uint16, cip: bytes)
    requires |cip| <= 0xFFFF - 22
    ensures DecodeUnit(UnitPacket(otId, sequence, cip)) == Some(Arrival(otId, sequence, cip))
  {
    var items := [Item(0xA1, LE32(otId)), Item(0xB1, LE16(sequence) + cip)];
    var payload := EncodePacket(items);
    PacketHeader(items);
    assert items[1..][0] == items[1];
    assert FirstItem(items, 0xA1, 4) == Some(LE32(otId)) && FirstItem(items, 0xB1, 2) == Some(LE16(sequence) + cip);
    hide EncodePacket, EncodeItems, Scan, LE16, LE32, ReadU16, ReadU32, FirstItem;
    ScanEncoded(payload, 8, items, 0xA1, 4);
    ScanEncoded(payload, 8, items, 0xB1, 2);
    var d := LE16(sequence) + cip;
    assert d[0..2] == LE16(sequence) && d[2..] == cip && LE32(otId)[0..4] == LE32(otId);
    ReadU16OfLE16(d, 0, sequence);
    ReadU32OfLE32(LE32(otId), 0, otId);
  }

  lemma UnitServed(p: Peer, otId: uint32, sequence: uint16, cip: bytes, v: Verdict, app: Application)
    requires p.session != 0 && otId in p.open && |cip| <= 0xFFFF - 22
    ensures Served(p, Frame(SEND_UNIT_DATA, p.session, UnitPacket(otId, sequence, cip)), v, app)
         == Delivered(p, Arrival(otId, sequence, cip), v, app)
  {
    hide Frame, UnitPacket, Delivered, DecodeUnit, ReadU16, ReadU32;
    FrameFields(SEND_UNIT_DATA, p.session, UnitPacket(otId, sequence, cip));
    UnitDecoded(otId, sequence, cip);
  }

  lemma RegisterServed(p: Peer, data: bytes, v: Verdict, app: Application)
    ensures Served(p, Frame(REGISTER_SESSION, 0, data), v, app) == Registered(p, data, v)
  {
  }

  lemma OpenServed(p: Peer, large: bool, otId: uint32, toId: uint32, serial: uint16, path: Path, v: Verdict,
                   app: Application)
    requires p.session != 0
    ensures var cip := OpenCip(large, otId, toId, serial, path);
            var out := Served(p, Frame(SEND_RR_DATA, p.session, RRPacket(cip)), v, app);
            match out.1
            case Err(_) => out.0 == p && v.Lost?
            case Ok(f) =>
              && |f| >= 24 && ReadU32(f, 8) == 0 && RRData(f[24..]).Ok?
              && var reply := RRData(f[24..]).value;
                 && |reply| >= 4
                 && !v.Lost? && (reply[2] == 0 <==> Granted(p.open, serial, v))
                 && (reply[2] != 0 ==> out.0 == p)
                 && (reply[2] == 0 ==>
                      && |reply| >= 12
                      && var id := ReadU32(reply, 4);
                         && id == v.id && ReadU32(reply, 8) == toId
                         && out.0 == p.(open := p.open[id := Opened(Own(serial), SizeOf(large), SizeOf(large), path)]))
  {
    var cip := OpenCip(large, otId, toId, serial, path);
    OpenRoundTrip(large, otId, toId, serial, path);
    hide OpenCip, Frame, RRPacket, RRData, LE32, LE16, ReadU32, Served, InUse, Understand, Reply;
    RRServed(p, cip, v, app);
    match Managed(p, cip, v, app).1
    case Err(_) =>
    case Ok(reply) =>
      FrameFields(SEND_RR_DATA, p.session, RRPacket(reply));
      RREndToEnd(p.session, reply, []);
      match v
      case Accept(id) =>
        ReplyBytes(0xD4, 0, LE32(id) + LE32(toId) + LE16(serial));
        ReplyBytes(0xD4, 1, []);
        GrantedId(id, toId, serial);
      case Refuse(code) => ReplyBytes(0xD4, code, []);
  }

  lemma ReplyBytes(service: uint8, status: uint8, data: bytes)
    ensures var b := Reply(service, status, [], data); |b| == 4 + |data| && b[2] == status && b[4..] == data
  {
  }

  lemma GrantedId(id: uint32, toId: uint32, serial: uint16)
    ensures var b := Reply(0xD4, 0, [], LE32(id) + LE32(toId) + LE16(serial));
            |b| == 14 && ReadU32(b, 4) == id && ReadU32(b, 8) == toId
  {
  }

  // The frame that brings this answer to an unconnected message, or its loss.
  predicate AnsweredBy(frame: Result<bytes>, answer: Answer) {
    match answer
    case Ok(_) =>
      && frame.Ok? && |frame.value| >= 24
      && ReadU32(frame.value, 8) == 0 && RRData(frame.value[24..]) == answer
    case Err(_) => frame == answer
  }

  // Any other message comes back answered, refused or not at all.
  lemma ForwardServed(p: Peer, cip: bytes, v: Verdict, app: Application)
    requires p.session != 0 && |cip| <= 0xFFFF - 16 && Understand(cip).Other?
    ensures var out := Served(p, Frame(SEND_RR_DATA, p.session, RRPacket(cip)), v, app);
            match v
            case Accept(_) =>
              var (after, answer) := Reached(p, Unwrapped(cip), app);
              out.0 == after && AnsweredBy(out.1, answer)
            case Refuse(code) =>
              && out.0 == p && out.1.Ok? && |out.1.value| >= 24 && ReadU32(out.1.value, 8) == 0
              && RRData(out.1.value[24..]) == Ok(Reply(0xD2, code, [], []))
            case Lost => out.0 == p && out.1.Err?
  {
    hide Frame, RRPacket, RRData, ReadU32, Served, Understand, Reply, Unwrapped;
    RRServed(p, cip, v, app);
    match Managed(p, cip, v, app).1
    case Err(_) =>
    case Ok(reply) =>
      FrameFields(SEND_RR_DATA, p.session, RRPacket(reply));
      RREndToEnd(p.session, reply, []);
  }

  lemma WrappedIsOther(msg: bytes, route: Path)
    requires |msg| < 0x1_0000
    ensures Understand(Wrapped(msg, route)).Other? && Unwrapped(Wrapped(msg, route)) == Forwarded(msg, route)
    ensures |Wrapped(msg, route)| <= |msg| + 523
  {
    UnwrapRoundTrip(msg, route);
    WrappedParts(msg, route);
    hide Wrapped, Unwrap;
  }

  // Without a session the device turns everything away.
  lemma NoSession(p: Peer, payload: bytes, v: Verdict, app: Application)
    requires p.session == 0
    ensures Served(p, Frame(SEND_RR_DATA, 0, payload), v, app) == (p, Ok(StatusFrame(SEND_RR_DATA, 0x64)))
    ensures ReadU32(StatusFrame(SEND_RR_DATA, 0x64), 8) != 0
  {
    hide Frame, StatusFrame, ReadU16, ReadU32;
    FrameFields(SEND_RR_DATA, 0, payload);
    StatusFields(SEND_RR_DATA, 0x64);
  }

  lemma CloseServed(p: Peer, serial: uint16, path: Path, v: Verdict, app: Application)
    requires p.session != 0
    ensures Served(p, Frame(SEND_RR_DATA, p.session, RRPacket(CloseCip(serial, path))), v, app).0
         == p.(open := Without(p.open, Own(serial)))
  {
    CloseRoundTrip(serial, path);
    hide CloseCip, Frame, RRPacket, RRData, LE32, LE16, ReadU32, Served, Understand, Reply;
    RRServed(p, CloseCip(serial, path), v, app);
  }

  // Closing removes the client's own connection and nothing else.
  lemma OwnConnectionRemoved(open: map<uint32, Opened>, base: map<uint32, Opened>, id: uint32, triad: Triad)
    requires id in open && open[id].triad == triad && open - {id} == base && !InUse(base, triad)
    ensures Without(open, triad) == base
  {
  }

  predicate Admits(v: Verdict) { v.Accept? && v.id != 0 }

  // The large connection is granted, or it is turned down and then the standard one is granted.
  predicate Opens(verdicts: nat -> Verdict, clock: nat, open: map<uint32, Opened>, serial: uint16) {
    || Granted(open, serial, verdicts(clock))
    || (!verdicts(clock).Lost? && Granted(open, serial, verdicts(clock + 1)))
  }

  lemma VersionOne()
    ensures IsVersionOne(LE16(1) + LE16(0))
  {
  }

  lemma RegisterReplies(p: Peer, data: bytes, v: Verdict)
    requires p.session == 0 && IsVersionOne(data)
    ensures var out := Registered(p, data, v);
            match out.1
            case Err(_) => out.0 == p && v.Lost?
            case Ok(f) =>
              && |f| >= 24 && (ReadU32(f, 8) == 0 <==> Admits(v))
              && (ReadU32(f, 8) != 0 ==> out.0 == p)
              && (ReadU32(f, 8) == 0 ==> ReadU32(f, 4) != 0 && out.0 == p.(session := ReadU32(f, 4)))
  {
  }

  lemma UnitReplies(p: Peer, a: Connected, v: Verdict, app: Application)
    requires a.otId in p.open
    ensures var out := Delivered(p, a, v, app);
            match v
            case Accept(_) =>
              var (after, answer) := Reached(p, a, app);
              && out.0 == after
              && (match answer
                  case Ok(data) =>
                    && out.1.Ok? && |out.1.value| >= 24
                    && ReadU32(out.1.value, 8) == 0 && UnitData(out.1.value[24..]) == answer
                  case Err(_) => out.1 == answer)
            case Refuse(_) => out.0 == p && out.1.Ok? && |out.1.value| >= 24 && ReadU32(out.1.value, 8) != 0
            case Lost => out.0 == p && out.1.Err?
  {
    hide Frame, StatusFrame, ReadU32, UnitPacket, UnitData;
    match v
    case Accept(_) =>
      var answer := Reached(p, a, app).1;
      if answer.Ok? {
        FrameFields(SEND_UNIT_DATA, p.session, UnitPacket(a.otId, a.sequence, answer.value));
        UnitEndToEnd(p.session, a.otId, a.sequence, answer.value, []);
      }
    case Refuse(code) => StatusFields(SEND_UNIT_DATA, code as int);
    case Lost =>
  }

  // ---- the client ----

  ghost predicate Fits(route: seq<Route.Hop>) {
    Route.RoutePath(route).Ok? ==> |Route.RoutePath(route).value| <= 506
  }

  class EipConnection {
    var sock: Device?
    var session: uint32
    var otId: uint32
    var toId: uint32
    var serial: uint16
    var sequence: uint16
    var route: seq<Route.Hop>
    var connected: bool
    var connectionSize: nat

    // The CIP connections the device held when this one was made.
    ghost var base: map<uint32, Opened>

    constructor ()
      ensures Valid() && sock == null && session == 0 && !connected && connectionSize == 504
    {
      sock, session, otId, toId, serial, sequence, route := null, 0, 0, 0, 0, 0, [];
      connected, connectionSize := false, 504;
      base := map[];
    }

    // The device holds this connection, with the size the client goes by, on top of the others.
    ghost predicate Owns(open: map<uint32, Opened>)
      reads `otId, `serial, `connectionSize, `base
    {
      && otId in open && open[otId].triad == Own(serial)
      && open[otId].sendSize == open[otId].replySize == connectionSize
      && open - {otId} == base && !InUse(base, Own(serial))
    }

    ghost predicate Valid()
      reads this, sock
    {
      && Coherent()
      && (sock == null || otId == 0 ==> !connected)
    }

    ghost predicate Coherent()
      reads this, sock
    {
      && Fits(route)
      && (sock == null ==> session == 0 && otId == 0 && sequence == 0)
      && (sock != null ==> sock.peer.session == session)
      && (sock != null && otId == 0 ==> sock.peer.open == base)
      && (sock != null && otId != 0 ==> session != 0 && Owns(sock.peer.open) && Route.RoutePath(route).Ok?)
    }

    // Any step may fail; whatever has been set up by then, `Close` undoes.
    method Connect(device: Device, reachable: bool, route: seq<Route.Hop>, picks: (uint16, uint16, uint16))
      returns (r: Result<()>)
      requires Valid() && Fits(route) && device != sock && device.peer.session == 0
      modifies this, sock, device
      ensures Valid() && sock == device && base == old(device.peer.open) && this.route == route && sequence == 0
      ensures r.Ok? <==> connected
      ensures var (vs, clock) := (device.verdicts, old(device.clock));
              r.Ok? <==>
                reachable && Route.RoutePath(route).Ok? && Admits(vs(clock)) && Opens(vs, clock + 1, base, picks.2)
      ensures r.Ok? ==>
        connectionSize == SizeOf(Granted(base, picks.2, device.verdicts(old(device.clock) + 1)))
      ensures device.peer.arrived == old(device.peer.arrived) && device.peer.trends == old(device.peer.trends)
      ensures old(device.clock) <= device.clock && (r.Ok? ==> device.clock >= old(device.clock) + 2)
      ensures old(sock) != null ==> old(sock).peer.session == 0 && old(sock).peer.open == old(base)
    {
      hide Route.RoutePath, InUse, Granted, Owns;
      Close();
      this.route := route;
      sock, base := device, device.peer.open;
      if !reachable {
        return Err(ConnectionLost);
      }
      r := RegisterSession();
      if r.Err? {
        return;
      }
      r := ForwardOpen(picks);
      if r.Err? {
        return;
      }
      connected := true;
    }

    method BuildConnPath() returns (r: Result<bytes>)
      requires Fits(route)
      ensures r.Ok? <==> Route.RoutePath(route).Ok?
      ensures r.Ok? ==> r.value == Route.RoutePath(route).value + ROUTER && |r.value| % 2 == 0 && |r.value| <= 510
    {
      hide Route.RoutePath;
      var path :- Route.BuildRoutePath(route);
      r := Ok(path + [0x20, 0x02, 0x24, 0x01]);
    }

    // One attempt to open. Success means that the device holds the connection at the size asked for.
    method TryOpen(large: bool, connPath: Path, picks: (uint32, uint32)) returns (r: Result<bool>)
      requires sock != null && session != 0 && sock.peer.session == session && otId == 0 && sock.peer.open == base
      modifies this`otId, this`toId, this`connectionSize, sock
      ensures sock.peer.session == session && sock.clock == old(sock.clock) + 1
      ensures sock.peer.arrived == old(sock.peer.arrived) && sock.peer.trends == old(sock.peer.trends)
      ensures var v := sock.verdicts(old(sock.clock));
              (r == Ok(true) <==> Granted(base, serial, v)) && (r.Err? <==> v.Lost?)
      ensures r != Ok(true) ==> otId == 0 && sock.peer.open == base
      ensures r == Ok(true) ==> otId != 0 && Owns(sock.peer.open) && connectionSize == SizeOf(large)
      ensures r == Ok(true) ==>
        toId == picks.1 && otId in sock.peer.open && sock.peer.open[otId].path == connPath
    {
      hide Frame, RRPacket, OpenHeader, OpenParams, LE16, LE32, ReadU32, Served, InUse, RRData;
      var fo := BuildOpen(large, picks.0, picks.1, serial, connPath);
      var payload := BuildRRPayload(fo);
      var pkt := BuildEnipHeader(SEND_RR_DATA, session, payload);
      OpenServed(sock.peer, large, picks.0, picks.1, serial, connPath, sock.verdicts(sock.clock), sock.app);
      var resp :- sock.Exchange(pkt);
      if ReadU32(resp, 8) != 0 {
        return Err(NotConnected);
      }
      var found := ParseSendRRResponse(resp[24..]);
      var cipResp := found.value;
      if |cipResp| >= 4 && cipResp[2] == 0 {
        otId, toId := ReadU32(cipResp, 4), ReadU32(cipResp, 8);
        connectionSize := if large then 4002 else 504;
        return Ok(true);
      }
      r := Ok(false);
    }

    // The large connection first, the standard one when the device will not have it.
    method ForwardOpen(picks: (uint16, uint16, uint16)) returns (r: Result<()>)
      requires Fits(route) && sock != null && session != 0 && sock.peer.session == session && !connected
      requires otId == 0 && sock.peer.open == base
      modifies this`serial, this`otId, this`toId, this`connectionSize, sock
      ensures Valid() && (r.Ok? <==> otId != 0)
      ensures sock.peer.arrived == old(sock.peer.arrived) && sock.peer.trends == old(sock.peer.trends)
      ensures r.Ok? <==> Route.RoutePath(route).Ok? && Opens(sock.verdicts, old(sock.clock), base, picks.2)
      ensures r.Ok? ==> connectionSize == SizeOf(Granted(base, picks.2, sock.verdicts(old(sock.clock))))
      ensures r.Ok? ==>
        && toId == 0x803F_0000 + picks.1 as int && otId in sock.peer.open
        && sock.peer.open[otId].path == Route.RoutePath(route).value + ROUTER
      ensures var v := sock.verdicts(old(sock.clock));
              sock.clock == old(sock.clock) + if Route.RoutePath(route).Err? then 0
                                              else if v.Lost? || Granted(base, picks.2, v) then 1
                                              else 2
    {
      hide Route.RoutePath, InUse, Owns, Granted;
      serial := picks.2;
      var connPath :- BuildConnPath();
      var large := true;
      for attempt := 0 to 2
        invariant large == (attempt == 0) && attempt < 2 && otId == 0
        invariant sock.peer.session == session && sock.peer.open == base
        invariant sock.peer.arrived == old(sock.peer.arrived) && sock.peer.trends == old(sock.peer.trends)
        invariant sock.clock == old(sock.clock) + attempt
        invariant serial == picks.2
        invariant attempt > 0 ==>
          !Granted(base, serial, sock.verdicts(old(sock.clock))) && !sock.verdicts(old(sock.clock)).Lost?
      {
        var ok :- TryOpen(large, connPath, (0x8000_0000 + picks.0 as int, 0x803F_0000 + picks.1 as int));
        if ok {
          return Ok(());
        }
        if !large {
          return Err(NotConnected);
        }
        large := false;
      }
      r := Err(NotConnected);
    }

    method Close()
      requires Valid()
      modifies this, sock
      ensures Valid() && sock == null && route == old(route)
      ensures old(sock) == null ==> unchanged(this)
      ensures old(sock) != null ==>
        old(sock).peer == old(sock.peer).(session := 0, open := base) && base == old(base) && sequence == 0
    {
      if sock == null {
        return;
      }
      hide Route.RoutePath, InUse, Frame;
      connected := false;
      ForwardClose();
      var pkt := BuildEnipHeader(UNREGISTER_SESSION, session, []);
      FrameFields(UNREGISTER_SESSION, session, []);
      sock.Unregister(pkt);
      sock := null;
      session, sequence := 0, 0;
    }

    method ForwardClose()
      requires Coherent() && sock != null
      modifies this`otId, sock
      ensures otId == 0 && sock.peer == old(sock.peer).(open := base)
    {
      if otId == 0 {
        return;
      }
      hide Route.RoutePath, InUse, Frame, RRPacket, CloseCip, Served, Without;
      var connPath := BuildConnPath();
      var fc := BuildClose(serial, connPath.value);
      var payload := BuildRRPayload(fc);
      var pkt := BuildEnipHeader(SEND_RR_DATA, session, payload);
      CloseServed(sock.peer, serial, connPath.value, sock.verdicts(sock.clock), sock.app);
      OwnConnectionRemoved(sock.peer.open, base, otId, Own(serial));
      var _ := sock.Exchange(pkt);
      otId := 0;
    }

    // A message over the connection. The sequence count goes up by one each time, and the device gets
    // exactly this message, on this connection.
    method SendCip(msg: bytes) returns (r: Result<bytes>)
      requires Valid() && |msg| <= 0xFFFF - 22
      modifies this`sequence, sock
      ensures Valid()
      ensures !connected ==> r == Err(NotConnected) && sequence == old(sequence) && (sock != null ==> unchanged(sock))
      ensures connected ==> sequence == ToU16(old(sequence) + 1) && sock.clock == old(sock.clock) + 1
      ensures connected ==>
        match sock.verdicts(old(sock.clock))
        case Accept(_) => (sock.peer, r) == Reached(old(sock.peer), Arrival(otId, sequence, msg), sock.app)
        case _ => r.Err? && sock.peer == old(sock.peer)
    {
      hide Route.RoutePath, InUse, Frame, UnitPacket, Served, UnitData, ReadU32;
      if !connected {
        return Err(NotConnected);
      }
      sequence := ToU16(sequence + 1);
      var payload := BuildUnitPayload(otId, sequence, msg);
      var pkt := BuildEnipHeader(SEND_UNIT_DATA, session, payload);
      UnitServed(sock.peer, otId, sequence, msg, sock.verdicts(sock.clock), sock.app);
      UnitReplies(sock.peer, Arrival(otId, sequence, msg), sock.verdicts(sock.clock), sock.app);
      var resp :- sock.Exchange(pkt);
      if ReadU32(resp, 8) != 0 {
        return Err(Status(1));
      }
      r := ParseSendUnitResponse(resp[24..]);
    }

    // One unconnected frame and its answer.
    method SendFrame(frame: bytes) returns (r: Result<bytes>)
      requires sock != null && session == sock.peer.session && |frame| <= 0xFFFF - 16
      modifies sock
      ensures sock.clock >= old(sock.clock)
      ensures session == 0 ==> r.Err? && sock.peer == old(sock.peer)
      ensures session != 0 && Understand(frame).Other? ==>
        match sock.verdicts(old(sock.clock))
        case Accept(_) => (sock.peer, r) == Reached(old(sock.peer), Unwrapped(frame), sock.app)
        case Refuse(code) => r.Ok? && CipStatus(r.value).status == code && sock.peer == old(sock.peer)
        case Lost => r.Err? && sock.peer == old(sock.peer)
    {
      hide InUse, Frame, RRPacket, Served, RRData, ReadU32, Understand, Unwrapped;
      var payload := BuildRRPayload(frame);
      var pkt := BuildEnipHeader(SEND_RR_DATA, session, payload);
      ghost var v := sock.verdicts(sock.clock);
      if session == 0 {
        NoSession(sock.peer, payload, v, sock.app);
      } else if Understand(frame).Other? {
        ForwardServed(sock.peer, frame, v, sock.app);
        if v.Refuse? { ReplyRoundTrip(0xD2, v.code, [], []); }
      }
      var resp :- sock.Exchange(pkt);
      if ReadU32(resp, 8) != 0 {
        return Err(Status(1));
      }
      r := ParseSendRRResponse(resp[24..]);
    }

    // A message without a connection, along the route when there is one. It needs no more than a socket.
    method SendUnconnected(msg: bytes) returns (r: Result<bytes>)
      requires Valid() && |msg| <= 0xFFFF - 16 - 523
      modifies sock
      ensures route != [] || Understand(msg).Other? ==> Valid()
      ensures sock == null ==> r == Err(NotConnected)
      ensures sock != null ==> sock.clock >= old(sock.clock)
      ensures sock != null && Route.RoutePath(route).Err? ==> r.Err? && unchanged(sock)
      ensures sock != null && session == 0 ==> r.Err? && sock.peer == old(sock.peer)
      ensures sock != null && session != 0 && Route.RoutePath(route).Ok? && (route == [] ==> Understand(msg).Other?) ==>
        match sock.verdicts(old(sock.clock))
        case Accept(_) =>
          var a := if route == [] then Unwrapped(msg) else Forwarded(msg, Route.RoutePath(route).value);
          (sock.peer, r) == Reached(old(sock.peer), a, sock.app)
        case Refuse(code) => r.Ok? && CipStatus(r.value).status == code && sock.peer == old(sock.peer)
        case Lost => r.Err? && sock.peer == old(sock.peer)
    {
      assert Route.RoutePath([]) == Ok([]);
      hide Route.RoutePath, InUse, Understand, Wrapped, Unwrapped, CipStatus;
      if sock == null {
        return Err(NotConnected);
      }
      Route.RoutePathIsEven(route);
      var frame :- BuildUnconnected(msg, route);
      if route != [] { WrappedIsOther(msg, Route.RoutePath(route).value); }
      r := SendFrame(frame);
    }

    method RegisterSession() returns (r: Result<()>)
      requires sock != null && session == 0 && sock.peer.session == 0
      modifies this`session, sock
      ensures r.Ok? <==> session != 0
      ensures r.Ok? <==> Admits(sock.verdicts(old(sock.clock)))
      ensures sock.clock == old(sock.clock) + 1
      ensures sock.peer == old(sock.peer).(session := session)
    {
      hide Frame, LE16, LE32, ReadU32, Served;
      var data := LE16(1);
      data := data + LE16(0);
      VersionOne();
      var pkt := BuildEnipHeader(REGISTER_SESSION, 0, data);
      RegisterServed(sock.peer, data, sock.verdicts(sock.clock), sock.app);
      RegisterReplies(sock.peer, data, sock.verdicts(sock.clock));
      var resp :- sock.Exchange(pkt);
      if ReadU32(resp, 8) != 0 {
        return Err(ConnectionLost);
      }
      session := ReadU32(resp, 4);
      r := Ok(());
    }
  }

  // Connecting, sending and closing leave the device as it was, whichever steps failed on the way.
  method Visit(device: Device, reachable: bool, route: seq<Route.Hop>, picks: (uint16, uint16, uint16),
               msgs: seq<bytes>)
    requires device.peer.session == 0 && Fits(route)
    requires forall i | 0 <= i < |msgs| :: |msgs[i]| <= 0xFFFF - 22
    modifies device
    ensures device.peer.session == 0 && device.peer.open == old(device.peer.open)
  {
    hide Fits, Granted, Opens, Route.RoutePath;
    var conn := new EipConnection();
    var _ := conn.Connect(device, reachable, route, picks);
    for i := 0 to |msgs|
      invariant conn.Valid() && conn.sock == device && conn.base == old(device.peer.open)
    {
      var _ := conn.SendCip(msgs[i]);
    }
    conn.Close();
  }
}
