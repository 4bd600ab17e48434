// The PLC's side of the trend protocol: a table of trend objects with a strict order of operations,
// and the connection over which the client reaches it.
module TrendPlc {
  import opened Bytes
  import opened Enip
  import opened TrendMessages

  // One trend object: its settings and the tags bound to it, by the number the PLC gave each.
  datatype Trend = Trend(bufferSize: uint32, rate: uint32, running: bool, bound: map<uint16, bytes>)

  type Table = map<uint16, Trend>

  // What becomes of a request: carried out (with the number the PLC picks and the samples it returns),
  // refused, or lost on the way so that the client sees an exception. A request that is refused or lost
  // changes nothing.
  datatype Verdict = Obey(pick: uint16, samples: bytes) | Refuse(code: FailCode) | Drop

  // The strict order: configure and bind only while stopped, start only with something bound, read and
  // stop only while running, unbind only while stopped, delete only with nothing bound.
  predicate Lawful(table: Table, r: Request) {
    match r
    case Create(_) => true
    case SetAttributes(id, _, _) => id in table && !table[id].running
    case AddTag(id, _) => id in table && !table[id].running
    case StartTrend(id) => id in table && !table[id].running && table[id].bound != map[]
    case StopTrend(id) => id in table && table[id].running
    case RemoveTag(id, number) => id in table && !table[id].running && number in table[id].bound
    case Delete(id) => id in table && !table[id].running && table[id].bound == map[]
    case ReadData(id) => id in table && table[id].running
  }

  // Clean-up requests are honoured whenever they are lawful.
  predicate IsCleanUp(r: Request) { r.StopTrend? || r.RemoveTag? || r.Delete? }

  datatype Outcome = Outcome(table: Table, reply: Result<bytes>)

  function Answer(r: Request, status: uint8, data: bytes): Result<bytes> {
    Ok(Reply(if Service(r) < 0x80 then Service(r) + 0x80 else Service(r), status, [], data))
  }

  const CONFLICT: uint8 := 0x10

  // A request the PLC carries out.
  function Perform(table: Table, r: Request, pick: uint16, samples: bytes): Outcome
    requires Lawful(table, r)
  {
    match r
    case Create(size) =>
      if pick == 0 || pick in table then Outcome(table, Answer(r, 0x02, []))
      else Outcome(table[pick := Trend(size, 0, false, map[])], Answer(r, 0, LE32(pick)))
    case SetAttributes(id, rate, _) => Outcome(table[id := table[id].(rate := rate)], Answer(r, 0, []))
    case AddTag(id, path) =>
      var t := table[id];
      if pick == 0 || pick in t.bound then Outcome(table, Answer(r, 0x02, []))
      else Outcome(table[id := t.(bound := t.bound[pick := path])], Answer(r, 0, LE16(pick)))
    case StartTrend(id) => Outcome(table[id := table[id].(running := true)], Answer(r, 0, []))
    case StopTrend(id) => Outcome(table[id := table[id].(running := false)], Answer(r, 0, []))
    case RemoveTag(id, number) =>
      var t := table[id];
      Outcome(table[id := t.(bound := t.bound - {number})], Answer(r, 0, []))
    case Delete(id) => Outcome(table - {id}, Answer(r, 0, []))
    case ReadData(_) => Outcome(table, Answer(r, 0, samples))
  }

  function Execute(table: Table, r: Request, v: Verdict): Outcome {
    if !Lawful(table, r) then Outcome(table, Answer(r, CONFLICT, []))
    else if IsCleanUp(r) then Perform(table, r, 0, [])
    else match v
      case Obey(pick, samples) => Perform(table, r, pick, samples)
      case Refuse(code) => Outcome(table, Answer(r, code, []))
      case Drop => Outcome(table, Err(ConnectionLost))
  }

  // The client reads back the status and the data of an answer.
  lemma AnswerRead(r: Request, status: uint8, data: bytes)
    ensures Answer(r, status, data).Ok?
    ensures var cip := CipStatus(Answer(r, status, data).value); cip.status == status && cip.data == data
  {
  }

  predicate IsRead(msg: bytes) { Decode(msg).Some? && Decode(msg).value.ReadData? }

  predicate Succeeded(r: Result<bytes>) { r.Ok? && CipStatus(r.value).status == 0 }

  // A verdict that carries a request out, and gives what it creates a number of its own.
  ghost predicate CarriesOut(v: Verdict, table: Table, r: Request) {
    && v.Obey?
    && (r.Create? && |table| < 0xFFFF ==> v.pick != 0 && v.pick !in table)
    && (r.AddTag? && r.id in table && |table[r.id].bound| < 0xFFFF ==> v.pick == |table[r.id].bound| + 1)
  }

  // A PLC that does so: a new trend gets the least id that is free, a new tag the next number.
  function Unused(table: Table, from: nat): uint16
    requires 0 < from <= 0x1_0000
    decreases 0x1_0000 - from
  {
    if from == 0x1_0000 then 0 else if from in table then Unused(table, from + 1) else from
  }

  function Willing(clock: nat, table: Table, r: Request): Verdict {
    match r
    case Create(_) => Obey(Unused(table, 1), [])
    case AddTag(id, _) =>
      Obey(if id in table && |table[id].bound| < 0xFFFF then |table[id].bound| + 1 else 0, [])
    case _ => Obey(0, [])
  }

  lemma {:induction false} UnusedIs(table: Table, from: nat)
    requires 0 < from <= 0x1_0000 && |table| < 0xFFFF && forall n: nat | 0 < n < from :: n in table
    ensures Unused(table, from) != 0 && Unused(table, from) !in table
    decreases 0x1_0000 - from
  {
    AtLeast(table.Keys, from);
    if from in table { UnusedIs(table, from + 1); }
  }

  lemma {:induction false} AtLeast(numbers: set<uint16>, bound: nat)
    requires 0 < bound <= 0x1_0000 && forall n: nat | 0 < n < bound :: n in numbers
    ensures |numbers| >= bound - 1
  {
    if bound > 1 { AtLeast(numbers - {bound - 1}, bound - 1); }
  }

  lemma WillingCarriesOut(clock: nat, table: Table, r: Request)
    ensures CarriesOut(Willing(clock, table, r), table, r)
  {
    if r.Create? && |table| < 0xFFFF { UnusedIs(table, 1); }
  }

  // What becomes of each request is fixed in advance, in every conceivable way: for a read by its place in
  // the sequence of messages, for the others by the PLC's table as well.
  type Reads = nat -> Verdict
  type Setup = (nat, Table, Request) -> Verdict

  function VerdictOn(given: Reads, setup: Setup, n: nat, table: Table, r: Request): Verdict {
    if r.ReadData? then given(n) else setup(n, table, r)
  }

  // Message number n at the PLC. What makes no sense there is answered with an error.
  function Handle(given: Reads, setup: Setup, n: nat, table: Table, msg: bytes): Outcome {
    match Decode(msg)
    case None => Outcome(table, Ok(Reply(0x94, 0x04, [], [])))
    case Some(r) => Execute(table, r, VerdictOn(given, setup, n, table, r))
  }

  function TableAfter(given: Reads, setup: Setup, table: Table, msgs: seq<bytes>): Table {
    if msgs == [] then table
    else
      var n := |msgs| - 1;
      Handle(given, setup, n, TableAfter(given, setup, table, msgs[..n]), msgs[n]).table
  }

  lemma TableAfterNext(given: Reads, setup: Setup, table: Table, msgs: seq<bytes>, msg: bytes)
    ensures TableAfter(given, setup, table, msgs + [msg])
         == Handle(given, setup, |msgs|, TableAfter(given, setup, table, msgs), msg).table
  {
    hide Handle;
    assert (msgs + [msg])[..|msgs|] == msgs;
  }

  // The connection and the PLC behind it. `sent` records the messages, `log` the requests the PLC
  // understood, `lawful` whether every one of them kept to the strict order, `failures` how many requests
  // did not come back with status 0, and `lostReads` how many read requests were lost.
  class Link {
    const verdicts: Reads
    const setup: Setup
    const first: Table
    var clock: nat
    var table: Table
    var sent: seq<bytes>
    ghost var log: seq<Request>
    ghost var lawful: bool
    ghost var failures: nat
    ghost var lostReads: nat

    constructor (table: Table, verdicts: Reads, setup: Setup)
      ensures this.table == first == table && this.verdicts == verdicts && this.setup == setup && clock == 0
      ensures log == [] && lawful && failures == lostReads == 0 && (0 !in table ==> Valid())
    {
      this.table, first, this.verdicts, this.setup := table, table, verdicts, setup;
      clock, sent, log, lawful, failures, lostReads := 0, [], [], true, 0, 0;
    }

    // Instance 0 is the class itself.
    ghost predicate Valid()
      reads this
    {
      lawful && 0 !in table && Traced()
    }

    // The table is what the messages have made of it.
    ghost predicate Traced()
      reads this
    {
      clock == |sent| && table == TableAfter(verdicts, setup, first, sent)
    }

    // What becomes of this request if it is the next one.
    function Next(r: Request): Verdict
      reads this
    {
      VerdictOn(verdicts, setup, clock, table, r)
    }

    // A PLC that carries everything out and numbers the tags of a trend 1, 2, 3, and so on. Reads may
    // still be refused or lost.
    ghost predicate Orderly() {
      forall clock: nat, table: Table, r: Request :: CarriesOut(setup(clock, table, r), table, r)
    }

    // None of the n requests from `from` on is lost on the way.
    ghost predicate NoneLost(from: nat, n: nat) {
      forall c: nat | from <= c < from + n :: !verdicts(c).Drop?
    }

    // sendCip, with the device at the other end.
    method SendCip(msg: bytes) returns (r: Result<bytes>)
      modifies this
      ensures clock == old(clock) + 1 && sent == old(sent) + [msg]
      ensures old(Traced()) ==> Traced()
      ensures failures == old(failures) + (if Succeeded(r) then 0 else 1)
      ensures lostReads == old(lostReads) + (if r.Err? && IsRead(msg) then 1 else 0)
      ensures Decode(msg).Some? ==>
        var req, out := Decode(msg).value, Execute(old(table), Decode(msg).value, old(Next(Decode(msg).value)));
        && r == out.reply && table == out.table
        && log == old(log) + [req] && lawful == (old(lawful) && Lawful(old(table), req))
      ensures Decode(msg).None? ==>
        r == Ok(Reply(0x94, 0x04, [], [])) && table == old(table) && log == old(log) && lawful == old(lawful)
    {
      hide Decode, Execute, Lawful, Succeeded, IsRead;
      TableAfterNext(verdicts, setup, first, sent, msg);
      match Decode(msg) {
      case None =>
        r := Ok(Reply(0x94, 0x04, [], []));
      case Some(req) =>
        var out := Execute(table, req, Next(req));
        log := log + [req];
        lawful := lawful && Lawful(table, req);
        table := out.table;
        r := out.reply;
      }
      clock, sent := clock + 1, sent + [msg];
      failures := failures + (if Succeeded(r) then 0 else 1);
      lostReads := lostReads + (if r.Err? && IsRead(msg) then 1 else 0);
    }
  }
}
