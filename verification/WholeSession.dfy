// A whole session down to the device: the streamer's messages sent over a CIP connection, and the
// browser's over unconnected messages.
module WholeSessions {
  import opened Bytes
  import opened Enip
  import opened DataStreams
  import opened EipConnections
  import opened TrendPlc
  import Browsing = TagBrowser
  import Route
  import Templates

  const MAX_MESSAGE: nat := 0xFFFF - 22

  // An answer too long for a packet does not get through.
  function Clipped(reply: Result<bytes>): Answer {
    if reply.Ok? && |reply.value| > MAX_MESSAGE then Err(ConnectionLost) else reply
  }

  // ---- the trends behind a device ----

  // The device hands connected messages to its trends, as message number 0, 1, 2, ... of the session.
  function AtTrends(given: Reads, setup: Setup, from: nat, n: nat, table: Table, a: Arrival): (Table, Answer) {
    if n < from || !a.Arrival? then (table, Ok([]))
    else
      var out := Handle(given, setup, n - from, table, a.cip);
      (out.table, Clipped(out.reply))
  }

  function TrendApplication(given: Reads, setup: Setup, from: nat): Application {
    (n: nat, table: Table, a: Arrival) => AtTrends(given, setup, from, n, table, a)
  }

  // The connection is up, the device behind it works on these trends and loses no message itself, and
  // `done` are the messages of the session so far.
  ghost predicate Serves(conn: EipConnection, link: Link, from: nat, done: seq<bytes>)
    reads conn, conn.sock, link
  {
    && conn.Valid() && conn.connected && conn.sock != null
    && conn.sock.app == TrendApplication(link.verdicts, link.setup, from)
    && (forall c: nat | c >= conn.sock.clock :: conn.sock.verdicts(c).Accept?)
    && |conn.sock.peer.arrived| == from + |done|
    && conn.sock.peer.trends == TableAfter(link.verdicts, link.setup, link.first, done)
  }

  // One message over the connection: the device does with it what the trends' own account says, and the
  // client gets the answer.
  method SendOne(conn: EipConnection, link: Link, ghost from: nat, ghost done: seq<bytes>, msg: bytes)
    returns (r: Result<bytes>)
    requires Serves(conn, link, from, done) && |msg| <= MAX_MESSAGE
    modifies conn`sequence, conn.sock
    ensures Serves(conn, link, from, done + [msg]) && conn.sock == old(conn.sock) && conn.base == old(conn.base)
    ensures r == Clipped(Handle(link.verdicts, link.setup, |done|,
                                TableAfter(link.verdicts, link.setup, link.first, done), msg).reply)
  {
    hide Handle, TableAfter;
    TableAfterNext(link.verdicts, link.setup, link.first, done, msg);
    r := conn.SendCip(msg);
  }

  // All messages of a session, sent over the connection: the device's trends end up as the session has
  // left them.
  method SendAll(conn: EipConnection, link: Link, ghost from: nat)
    requires Serves(conn, link, from, []) && link.Traced()
    requires forall k | 0 <= k < |link.sent| :: |link.sent[k]| <= MAX_MESSAGE
    modifies conn`sequence, conn.sock
    ensures Serves(conn, link, from, link.sent) && conn.sock == old(conn.sock) && conn.base == old(conn.base)
    ensures conn.sock.peer.trends == link.table
  {
    hide TableAfter, Handle;
    for k := 0 to |link.sent|
      invariant Serves(conn, link, from, link.sent[..k]) && conn.sock == old(conn.sock) && conn.base == old(conn.base)
    {
      var _ := SendOne(conn, link, from, link.sent[..k], link.sent[k]);
      assert link.sent[..k + 1] == link.sent[..k] + [link.sent[k]];
    }
    assert link.sent[..|link.sent|] == link.sent;
  }

  // Connecting, streaming and closing: the device's session and its CIP connections are as before, and so
  // are its trends, if and only if none of the read requests is lost.
  method WholeSession(
    device: Device, reachable: bool, route: seq<Route.Hop>, picks: (uint16, uint16, uint16), given: Reads,
    setup: Setup, sampleRateUs: uint32, selected: Tags, hosts: seq<real>)
    returns (link: Link)
    requires device.peer.session == 0 && Fits(route) && 0 !in device.peer.trends && selected != []
    requires device.app == TrendApplication(given, setup, |device.peer.arrived|)
    requires forall c: nat | c >= device.clock + 2 :: device.verdicts(c).Accept?
    requires forall k | 0 <= k < |hosts| :: hosts[k] >= 0.0
    modifies device
    ensures device.peer.session == 0 && device.peer.open == old(device.peer.open)
    ensures (forall k | 0 <= k < |link.sent| :: |link.sent[k]| <= MAX_MESSAGE) ==>
      && device.peer.trends == link.table
      && (device.peer.trends == old(device.peer.trends) <==> link.lostReads == 0)
  {
    hide Fits, Granted, Opens, Route.RoutePath, TableAfter, Handle, Admits;
    var conn := new EipConnection();
    var r := conn.Connect(device, reachable, route, picks);
    link := new Link(device.peer.trends, given, setup);
    var _, _, _ := Session(link, r.Ok?, if r.Ok? then conn.connectionSize else 504, sampleRateUs, selected, hosts);
    if r.Ok? && forall k | 0 <= k < |link.sent| :: |link.sent[k]| <= MAX_MESSAGE {
      NothingDone(link);
      SendAll(conn, link, |device.peer.arrived|);
    }
    conn.Close();
  }

  lemma NothingDone(link: Link)
    ensures TableAfter(link.verdicts, link.setup, link.first, []) == link.first
  {
  }

  // ---- the browser ----

  // A device that answers the same message the same way, whatever came before.
  function BrowserApplication(peer: Templates.Peer): Application {
    (n: nat, table: Table, a: Arrival) => AtPeer(peer, table, a)
  }

  function AtPeer(peer: Templates.Peer, table: Table, a: Arrival): (Table, Answer) { (table, Clipped(peer(a.cip))) }

  // Neither for the connection manager nor in a wrapping of its own.
  predicate IsPlain(msg: bytes) { Understand(msg).Other? && Unwrap(msg).None? && |msg| <= 0xFFFF - 16 - 523 }

  ghost predicate Answers(conn: EipConnection, peer: Templates.Peer)
    reads conn, conn.sock
  {
    && conn.Valid() && conn.sock != null && conn.session != 0 && Route.RoutePath(conn.route).Ok?
    && conn.sock.app == BrowserApplication(peer)
    && forall c: nat | c >= conn.sock.clock :: conn.sock.verdicts(c).Accept?
  }

  // A request over sendUnconnected is answered as the peer answers it, with a route or without, and the
  // next one will be as well: this is the peer that a browse runs on.
  method Ask(conn: EipConnection, msg: bytes, ghost peer: Templates.Peer) returns (r: Result<bytes>)
    requires Answers(conn, peer) && IsPlain(msg)
    modifies conn.sock
    ensures r == Clipped(peer(msg)) && Answers(conn, peer) && conn.sock.peer.trends == old(conn.sock.peer.trends)
  {
    hide Understand, Unwrap, Route.RoutePath;
    r := conn.SendUnconnected(msg);
  }

  // All requests of a browser can be asked that way.
  lemma RequestsArePlain(program: bytes, cursor: uint16, id: uint16, offset: nat, remaining: nat)
    requires |program| <= 255
    ensures IsPlain(Browsing.TagListRequest(program, cursor))
    ensures IsPlain(Templates.AttributesRequest(id)) && IsPlain(Templates.ReadRequest(id, offset, remaining))
  {
  }
}
