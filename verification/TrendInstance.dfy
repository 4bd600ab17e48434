// One trend instance: creating, configuring, filling and starting a trend object on the PLC, reading
// from it, and taking it down again.
module TrendInstances {
  import opened Bytes
  import opened CipPath
  import opened Enip
  import opened TimeSeries
  import opened TrendMessages
  import opened TrendPlc

  // How a start ends: running, given up after the PLC refused a step, or left by an exception.
  datatype StartResult = Started | Refused(status: uint8) | Threw(error: Error)

  datatype TagEntry = TagEntry(name: bytes, dataType: uint16, tagNumber: uint16)

  // ---- what the PLC should hold for a list of tags ----

  function PathOf(name: bytes): bytes {
    match SymbolicPath(name)
    case Ok(path) => path
    case Err(_) => []
  }

  // Bindings of the tags that have a number.
  function Bindings(tags: seq<TagEntry>): map<uint16, bytes> {
    if tags == [] then map[]
    else
      var t := tags[|tags| - 1];
      var before := Bindings(tags[..|tags| - 1]);
      if t.tagNumber == 0 then before else before[t.tagNumber := PathOf(t.name)]
  }

  predicate DistinctNumbers(tags: seq<TagEntry>) {
    tags == []
    || (var t := tags[|tags| - 1];
        && DistinctNumbers(tags[..|tags| - 1])
        && (t.tagNumber != 0 ==> t.tagNumber !in Bindings(tags[..|tags| - 1])))
  }

  // Names that can be turned into a path that fits a request.
  predicate Nameable(name: bytes) { SymbolicPath(name).Ok? && |SymbolicPath(name).value| <= 510 }

  predicate AllNameable(names: seq<(bytes, uint16)>) { forall i | 0 <= i < |names| :: Nameable(names[i].0) }

  predicate AllBound(tags: seq<TagEntry>) { forall i | 0 <= i < |tags| :: tags[i].tagNumber != 0 }

  // The tags bound so far are the first k.
  predicate BoundUpTo(tags: seq<TagEntry>, k: nat) {
    forall i | 0 <= i < |tags| :: tags[i].tagNumber != 0 <==> i < k
  }

  // The first k tags have the numbers 1, 2, 3, ...
  predicate NumberedUpTo(tags: seq<TagEntry>, k: nat) {
    k <= |tags| && forall i | 0 <= i < k :: tags[i].tagNumber == i + 1
  }

  // The number after the last one is free.
  predicate HasNext(bound: map<uint16, bytes>) { |bound| < 0xFFFF && |bound| + 1 !in bound }

  predicate NoneBound(tags: seq<TagEntry>) { forall i | 0 <= i < |tags| :: tags[i].tagNumber == 0 }

  // The requests that unbind the first k tags, last one first.
  function Removals(id: uint16, tags: seq<TagEntry>, k: nat): seq<Request>
    requires k <= |tags|
  {
    if k == 0 then []
    else (if tags[k - 1].tagNumber != 0 then [RemoveTag(id, tags[k - 1].tagNumber)] else [])
         + Removals(id, tags, k - 1)
  }

  // Taking an instance down: stop if running, unbind in reverse order, delete.
  function TakeDown(id: uint16, running: bool, tags: seq<TagEntry>): seq<Request> {
    (if running then [StopTrend(id)] else []) + Removals(id, tags, |tags|) + [Delete(id)]
  }

  // Numbers after position k do not matter when they are zero.
  lemma {:induction false} BindingsOfPrefix(tags: seq<TagEntry>, k: nat)
    requires k <= |tags| && forall i | k <= i < |tags| :: tags[i].tagNumber == 0
    ensures Bindings(tags) == Bindings(tags[..k])
    ensures DistinctNumbers(tags) <==> DistinctNumbers(tags[..k])
    decreases |tags|
  {
    if k == |tags| {
      assert tags[..k] == tags;
    } else {
      BindingsOfPrefix(tags[..|tags| - 1], k);
      assert tags[..|tags| - 1][..k] == tags[..k];
    }
  }

  lemma {:induction false} AllBoundIsNonEmpty(tags: seq<TagEntry>)
    requires tags != [] && AllBound(tags)
    ensures Bindings(tags) != map[]
  {
    assert tags[|tags| - 1].tagNumber in Bindings(tags);
  }

  // Bindings under 1, 2, 3, ... leave the next number free.
  lemma {:induction false} BindingsInOrder(tags: seq<TagEntry>)
    requires NumberedUpTo(tags, |tags|)
    ensures |Bindings(tags)| == |tags| && forall n | n in Bindings(tags) :: n <= |tags|
  {
    hide PathOf;
    if tags != [] { BindingsInOrder(tags[..|tags| - 1]); }
  }

  // Unbinding the last numbered tag leaves the bindings of the ones before it.
  lemma UnbindLast(tags: seq<TagEntry>, k: nat)
    requires 0 < k <= |tags| && DistinctNumbers(tags[..k])
    ensures DistinctNumbers(tags[..k - 1])
    ensures tags[k - 1].tagNumber != 0 ==>
      && tags[k - 1].tagNumber in Bindings(tags[..k])
      && Bindings(tags[..k]) - {tags[k - 1].tagNumber} == Bindings(tags[..k - 1])
    ensures tags[k - 1].tagNumber == 0 ==> Bindings(tags[..k]) == Bindings(tags[..k - 1])
  {
    assert tags[..k][..k - 1] == tags[..k - 1];
  }

  // Giving tag i a number adds its binding to those of the tags before it.
  lemma BindNext(tags: seq<TagEntry>, i: nat, number: uint16)
    requires i < |tags| && number != 0 && number !in Bindings(tags[..i])
    requires BoundUpTo(tags, i) && DistinctNumbers(tags[..i])
    ensures var next := tags[i := tags[i].(tagNumber := number)];
            && next[..i] == tags[..i]
            && Bindings(next[..i + 1]) == Bindings(tags[..i])[number := PathOf(tags[i].name)]
            && DistinctNumbers(next[..i + 1]) && BoundUpTo(next, i + 1)
  {
    hide PathOf;
    var next := tags[i := tags[i].(tagNumber := number)];
    assert next[..i + 1][..i] == tags[..i];
  }

  function Adds(id: uint16, tags: seq<TagEntry>, k: nat): seq<Request>
    requires k <= |tags|
  {
    if k == 0 then [] else Adds(id, tags, k - 1) + [AddTag(id, PathOf(tags[k - 1].name))]
  }

  lemma {:induction false} AddsIgnoreNumbers(id: uint16, a: seq<TagEntry>, b: seq<TagEntry>, k: nat)
    requires k <= |a| == |b| && forall i | 0 <= i < k :: a[i].name == b[i].name
    ensures Adds(id, a, k) == Adds(id, b, k)
  {
    hide PathOf;
    if k > 0 { AddsIgnoreNumbers(id, a, b, k - 1); }
  }

  lemma AddsNext(id: uint16, tags: seq<TagEntry>, i: nat)
    requires i < |tags|
    ensures Adds(id, tags, i + 1) == Adds(id, tags, i) + [AddTag(id, PathOf(tags[i].name))]
  {
  }

  lemma OneOfThem(names: seq<(bytes, uint16)>, i: nat)
    requires i < |names|
    ensures AllNameable(names) ==> Nameable(names[i].0)
  {
  }

  lemma NoAdds(id: uint16, tags: seq<TagEntry>)
    ensures Adds(id, tags, 0) == []
  {
  }

  // The requests of a start that goes through.
  function BuildUp(id: uint16, tags: seq<TagEntry>, rate: uint32, bufferSize: uint32): seq<Request> {
    [Create(bufferSize), SetAttributes(id, rate, 0)] + Adds(id, tags, |tags|) + [StartTrend(id)]
  }

  class TrendInstance {
    const link: Link
    var tags: seq<TagEntry>
    var instanceId: uint32
    var running: bool
    var lastTagNumber: uint16

    constructor (link: Link, tags: seq<(bytes, uint16)>)
      ensures this.link == link && Fresh()
      ensures Names() == tags
    {
      this.link := link;
      this.tags := seq(|tags|, i requires 0 <= i < |tags| => TagEntry(tags[i].0, tags[i].1, 0));
      instanceId, running, lastTagNumber := 0, false, 0;
    }

    function Names(): (names: seq<(bytes, uint16)>)
      reads this
      ensures |names| == |tags| && forall i | 0 <= i < |tags| :: names[i] == (tags[i].name, tags[i].dataType)
    {
      seq(|tags|, i requires 0 <= i < |tags| reads this => (tags[i].name, tags[i].dataType))
    }

    ghost predicate Fresh()
      reads this
    {
      !running && instanceId == 0 && NoneBound(tags)
    }

    // The PLC holds exactly what this instance believes it does.
    ghost predicate OwnsIn(table: Table)
      reads this
    {
      if instanceId == 0 then !running
      else
        && instanceId < 0x1_0000 && instanceId in table
        && table[instanceId].running == running
        && table[instanceId].bound == Bindings(tags)
        && DistinctNumbers(tags)
        && (running ==> AllBound(tags) && tags != [])
    }

    // ---- the trend services ----

    // Service code, path length, path and data, sent over the connection.
    method Send(service: uint8, instance: int, data: bytes, ghost req: Request) returns (r: Result<bytes>)
      requires service == Service(req) && instance == Target(req) && data == Body(req)
      modifies link
      ensures link.clock == old(link.clock) + 1 && (old(link.Traced()) ==> link.Traced())
      ensures link.failures == old(link.failures) + (if Succeeded(r) then 0 else 1)
      ensures Encodable(req) ==> link.lostReads == old(link.lostReads) + (if r.Err? && req.ReadData? then 1 else 0)
      ensures Encodable(req) ==>
        var out := Execute(old(link.table), req, old(link.Next(req)));
        && r == out.reply && link.table == out.table
        && link.log == old(link.log) + [req] && link.lawful == (old(link.lawful) && Lawful(old(link.table), req))
    {
      hide Execute, Lawful, Decode, Body, Service, Succeeded;
      var path := BuildCipPath(TREND_CLASS, instance);
      var msg: bytes := [service];
      msg := msg + [ToU8(|path| / 2)];
      msg := msg + path;
      msg := msg + data;
      assert msg == Encode(req);
      if Encodable(req) { RequestRoundTrip(req); }
      r := link.SendCip(msg);
    }

    method CreateTrend(bufferSize: uint32) returns (r: Result<uint8>)
      requires link.Valid() && instanceId == 0
      modifies this`instanceId, link
      ensures link.Valid() && link.log == old(link.log) + [Create(bufferSize)]
      ensures r == Ok(0) ==>
        && 0 < instanceId < 0x1_0000 && instanceId !in old(link.table)
        && link.table == old(link.table)[instanceId := Trend(bufferSize, 0, false, map[])]
      ensures r != Ok(0) ==> instanceId == 0 && link.table == old(link.table)
      ensures link.Orderly() && |old(link.table)| < 0xFFFF ==> r == Ok(0)
      ensures link.failures == old(link.failures) + (if r == Ok(0) then 0 else 1)
      ensures link.lostReads == old(link.lostReads)
    {
      hide Link.Traced;
      var data := LE16(2) + LE16(8);
      data := data + LE32(bufferSize);
      data := data + LE16(3);
      data := data + [1];
      hide LE16, LE32, CipStatus, Answer, Reply;
      ghost var req := Create(bufferSize);
      ghost var v := link.Next(req);
      var resp :- Send(0x08, 0, data, req);
      CreateAnswers(old(link.table), bufferSize, v);
      var cip := ParseCipStatus(resp);
      if cip.status == 0 && |cip.data| >= 4 {
        instanceId := ReadU32(cip.data, 0);
      }
      r := Ok(cip.status);
    }

    // The other services only need the trend they are addressed to.
    ghost predicate Holds(t: Trend)
      reads this, link
    {
      link.Valid() && 0 < instanceId < 0x1_0000 && instanceId in link.table && link.table[instanceId] == t
    }

    method SetTrendAttributes(sampleRateUs: uint32, state: uint8, ghost t: Trend) returns (r: Result<uint8>)
      requires Holds(t) && !t.running
      modifies link
      ensures link.Valid() && link.log == old(link.log) + [SetAttributes(instanceId, sampleRateUs, state)]
      ensures link.table
           == if r == Ok(0) then old(link.table)[instanceId := t.(rate := sampleRateUs)] else old(link.table)
      ensures link.Orderly() ==> r == Ok(0)
      ensures link.failures == old(link.failures) + (if r == Ok(0) then 0 else 1)
      ensures link.lostReads == old(link.lostReads)
    {
      var data := LE16(2) + LE16(1);
      data := data + LE32(sampleRateUs);
      data := data + LE16(5);
      data := data + [state];
      hide LE16, LE32, CipStatus, Answer, Reply;
      ghost var req := SetAttributes(instanceId, sampleRateUs, state);
      StatusOnly(link.table, req, link.Next(req));
      var resp :- Send(0x04, AsInt32(instanceId), data, req);
      var cip := ParseCipStatus(resp);
      r := Ok(cip.status);
    }

    method AddTagTo(tagName: bytes, ghost t: Trend) returns (r: Result<uint8>)
      requires Holds(t) && !t.running
      modifies this`lastTagNumber, link
      ensures link.Valid()
      ensures link.log == old(link.log) || link.log == old(link.log) + [AddTag(instanceId, PathOf(tagName))]
      ensures r == Ok(0) ==>
        && lastTagNumber != 0 && lastTagNumber !in t.bound
        && link.log == old(link.log) + [AddTag(instanceId, PathOf(tagName))]
        && link.table == old(link.table)[instanceId := t.(bound := t.bound[lastTagNumber := PathOf(tagName)])]
      ensures r != Ok(0) ==> link.table == old(link.table)
      ensures link.Orderly() && Nameable(tagName) && HasNext(t.bound) ==> r == Ok(0) && lastTagNumber == |t.bound| + 1
      ensures link.failures == old(link.failures) + (if r == Ok(0) || SymbolicPath(tagName).Err? then 0 else 1)
      ensures SymbolicPath(tagName).Err? ==> r.Err?
      ensures r.Ok? && r.value != 0 ==> lastTagNumber == 0
      ensures r.Err? ==> lastTagNumber == old(lastTagNumber)
      ensures link.lostReads == old(link.lostReads)
    {
      hide CipStatus, SymbolicPath, Body, Link.Traced;
      var path :- BuildSymbolicSegment(tagName);
      SymbolicPathIsEven(tagName);
      ghost var req := AddTag(instanceId, path);
      var data := BuildAddTagBody(path, instanceId);
      if Encodable(req) {
        AddAnswers(link.table, instanceId, path, link.Next(req));
      }
      var resp;
      resp := SendAdd(data, req);
      if resp.Err? {
        return Err(resp.error);
      }
      var cip := ParseCipStatus(resp.value);
      if cip.status == 0 && |cip.data| >= 2 {
        lastTagNumber := ReadU16(cip.data, 0);
      } else {
        lastTagNumber := 0;
      }
      r := Ok(cip.status);
    }

    method BuildAddTagBody(path: bytes, ghost id: uint16) returns (data: bytes)
      ensures data == Body(AddTag(id, path))
    {
      hide LE16, LE32;
      data := LE16(1) + [1];
      data := data + [1];
      data := data + [ToU8(|path| / 2)];
      data := data + path;
      data := data + LE32(0xFFFF_FFFF);
      assert LE16(1) + [1] + [1] == LE16(1) + [1, 1];
    }

    // An oversized path makes a message the PLC does not understand.
    method SendAdd(data: bytes, ghost req: Request) returns (r: Result<bytes>)
      requires req.AddTag? && 0 < instanceId < 0x1_0000 && req.id == instanceId && data == Body(req)
      requires |req.path| % 2 == 0
      modifies link
      ensures link.failures == old(link.failures) + (if Succeeded(r) then 0 else 1)
      ensures Encodable(req) ==>
        var out := Execute(old(link.table), req, old(link.Next(req)));
        && r == out.reply && link.table == out.table
        && link.log == old(link.log) + [req] && link.lawful == (old(link.lawful) && Lawful(old(link.table), req))
      ensures !Encodable(req) ==>
        && link.table == old(link.table) && link.log == old(link.log) && link.lawful == old(link.lawful)
        && (r.Ok? ==> CipStatus(r.value).status == 0x04)
      ensures link.lostReads == old(link.lostReads) && (old(link.Traced()) ==> link.Traced())
      ensures link.clock == old(link.clock) + 1
    {
      hide Execute, Lawful, Decode, Body, Succeeded;
      var path := BuildCipPath(TREND_CLASS, AsInt32(instanceId));
      var msg: bytes := [0x4E];
      msg := msg + [ToU8(|path| / 2)];
      msg := msg + path;
      msg := msg + data;
      assert msg == Encode(req);
      if Encodable(req) { RequestRoundTrip(req); } else { OversizedPathRefused(req.id, req.path); }
      r := link.SendCip(msg);
    }

    method StartTrendObject(ghost t: Trend) returns (r: Result<uint8>)
      requires Holds(t) && !t.running && t.bound != map[]
      modifies link
      ensures link.Valid() && link.log == old(link.log) + [StartTrend(instanceId)]
      ensures link.table == if r == Ok(0) then old(link.table)[instanceId := t.(running := true)] else old(link.table)
      ensures link.Orderly() ==> r == Ok(0)
      ensures link.failures == old(link.failures) + (if r == Ok(0) then 0 else 1)
      ensures link.lostReads == old(link.lostReads)
    {
      hide CipStatus, Answer, Reply;
      ghost var req := StartTrend(instanceId);
      StatusOnly(link.table, req, link.Next(req));
      var resp :- Send(0x06, AsInt32(instanceId), [], req);
      var cip := ParseCipStatus(resp);
      r := Ok(cip.status);
    }

    method StopTrendObject(ghost t: Trend) returns (r: Result<uint8>)
      requires Holds(t) && t.running
      modifies link
      ensures link.Valid() && link.log == old(link.log) + [StopTrend(instanceId)]
      ensures r == Ok(0) && link.table == old(link.table)[instanceId := t.(running := false)]
      ensures link.failures == old(link.failures)
      ensures link.lostReads == old(link.lostReads)
    {
      hide CipStatus, Answer, Reply;
      ghost var req := StopTrend(instanceId);
      StatusOnly(link.table, req, link.Next(req));
      var resp := Send(0x07, AsInt32(instanceId), [], req);
      var cip := ParseCipStatus(resp.value);
      r := Ok(cip.status);
    }

    method RemoveTagFrom(tagNumber: uint16, ghost t: Trend) returns (r: Result<uint8>)
      requires Holds(t) && !t.running && tagNumber in t.bound
      modifies link
      ensures link.Valid() && link.log == old(link.log) + [RemoveTag(instanceId, tagNumber)]
      ensures r == Ok(0) && link.table == old(link.table)[instanceId := t.(bound := t.bound - {tagNumber})]
      ensures link.failures == old(link.failures)
      ensures link.lostReads == old(link.lostReads)
    {
      hide CipStatus, Answer, Reply, LE16;
      ghost var req := RemoveTag(instanceId, tagNumber);
      StatusOnly(link.table, req, link.Next(req));
      var resp := Send(0x4F, AsInt32(instanceId), LE16(tagNumber), req);
      var cip := ParseCipStatus(resp.value);
      r := Ok(cip.status);
    }

    method DeleteTrend(ghost t: Trend) returns (r: Result<uint8>)
      requires Holds(t) && !t.running && t.bound == map[]
      modifies this`instanceId, link
      ensures link.Valid() && link.log == old(link.log) + [Delete(old(instanceId))]
      ensures r == Ok(0) && instanceId == 0 && link.table == old(link.table) - {old(instanceId)}
      ensures link.failures == old(link.failures)
      ensures link.lostReads == old(link.lostReads)
    {
      hide CipStatus, Answer, Reply;
      ghost var req := Delete(instanceId);
      StatusOnly(link.table, req, link.Next(req));
      var resp := Send(0x09, AsInt32(instanceId), [], req);
      var cip := ParseCipStatus(resp.value);
      if cip.status == 0 {
        instanceId := 0;
      }
      r := Ok(cip.status);
    }

    // ---- start, stop and read ----

    // Undoing a half-done start: the first k tags are bound. They are removed in reverse order, then
    // the trend is deleted.
    method Rollback(k: nat, ghost t: Trend)
      requires k <= |tags| && Holds(t) && !t.running
      requires t.bound == Bindings(tags[..k]) && DistinctNumbers(tags[..k])
      requires BoundUpTo(tags, k)
      modifies this`instanceId, link
      ensures link.Valid() && instanceId == 0 && link.table == old(link.table) - {old(instanceId)}
      ensures link.log == old(link.log) + Removals(old(instanceId), tags, k) + [Delete(old(instanceId))]
      ensures link.failures == old(link.failures)
      ensures link.lostReads == old(link.lostReads)
    {
      hide Bindings, DistinctNumbers, Link.Traced;
      var j := k;
      ghost var id, cur := instanceId, t;
      while j > 0
        invariant link.lostReads == old(link.lostReads)
        invariant link.failures == old(link.failures)
        invariant 0 <= j <= k && instanceId == id
        invariant Holds(cur) && !cur.running && link.table == old(link.table)[id := cur]
        invariant cur.bound == Bindings(tags[..j]) && DistinctNumbers(tags[..j])
        invariant link.log + Removals(id, tags, j) == old(link.log) + Removals(id, tags, k)
      {
        UnbindLast(tags, j);
        ghost var log := link.log;
        var _ := RemoveTagFrom(tags[j - 1].tagNumber, cur);
        Regroup(log, [RemoveTag(id, tags[j - 1].tagNumber)], Removals(id, tags, j - 1));
        cur := cur.(bound := cur.bound - {tags[j - 1].tagNumber});
        j := j - 1;
      }
      NothingBound(tags);
      assert link.log + [] == link.log;
      var _ := DeleteTrend(cur);
    }

    // From a fresh instance: either it runs, with every tag bound and the requests sent in the order
    // the PLC wants; or the PLC refused a step and everything is undone; or an exception left it half
    // built, which `stop` can undo. A running instance is left alone.
    method Start(sampleRateUs: uint32, bufferSize: uint32) returns (r: StartResult)
      requires link.Valid() && (running || (Fresh() && tags != []))
      modifies this, link
      ensures old(running) ==>
        r == Started && unchanged(this) && unchanged(link)
      ensures !old(running) ==>
        && link.Valid() && Names() == old(Names()) && OwnsIn(link.table)
        && instanceId !in old(link.table) && link.table - {instanceId} == old(link.table)
        && (r.Started? <==> running)
        && (r.Refused? ==> instanceId == 0 && link.table == old(link.table))
      ensures !old(running) && r.Started? ==>
        && instanceId != 0
        && link.table[instanceId] == Trend(bufferSize, sampleRateUs, true, Bindings(tags))
        && link.log == old(link.log) + BuildUp(instanceId, tags, sampleRateUs, bufferSize)
      ensures !old(running) && r.Started? ==> link.failures == old(link.failures)
      ensures link.failures >= old(link.failures)
      ensures !r.Started? ==> link.failures > old(link.failures) || !AllNameable(Names())
      ensures link.lostReads == old(link.lostReads)
      ensures link.Orderly() && AllNameable(Names()) && |tags| <= 0xFFFF && |old(link.table)| < 0xFFFF ==>
        old(running) || (r.Started? && NumberedUpTo(tags, |tags|))
    {
      hide Bindings, DistinctNumbers, Adds, PathOf, Removals, AllNameable, AllBound, OwnsIn, NumberedUpTo, Link.Orderly;
      hide Lawful, Link.Traced;
      if running {
        return Started;
      }
      var status := CreateTrend(bufferSize);
      if instanceId == 0 { OwnsNothing(link.table); }
      if status.Err? {
        return Threw(status.error);
      }
      if status.value != 0 {
        return Refused(status.value);
      }
      r := Furnish(sampleRateUs, old(link.table), Trend(bufferSize, 0, false, map[]));
    }

    // The rest of start, from the trend just created.
    method Furnish(sampleRateUs: uint32, ghost base: Table, ghost t: Trend) returns (r: StartResult)
      requires Holds(t) && !t.running && t.bound == map[] && NoneBound(tags) && tags != [] && !running
      requires instanceId !in base && link.table == base[instanceId := t]
      modifies this, link
      ensures link.Valid() && Names() == old(Names()) && OwnsIn(link.table)
      ensures instanceId !in base && link.table - {instanceId} == base
      ensures r.Started? <==> running
      ensures r.Refused? ==> instanceId == 0 && link.table == base
      ensures r.Started? ==>
        && instanceId != 0 && link.table[instanceId] == Trend(t.bufferSize, sampleRateUs, true, Bindings(tags))
        && link.log == old(link.log) + BuildUp(instanceId, tags, sampleRateUs, t.bufferSize)[1..]
      ensures r.Started? ==> link.failures == old(link.failures)
      ensures link.failures >= old(link.failures)
      ensures !r.Started? ==> link.failures > old(link.failures) || !AllNameable(Names())
      ensures link.lostReads == old(link.lostReads)
      ensures link.Orderly() && AllNameable(Names()) && |tags| <= 0xFFFF ==> r.Started? && NumberedUpTo(tags, |tags|)
    {
      hide Bindings, DistinctNumbers, Adds, PathOf, Removals, AllNameable, AllBound, OwnsIn, NumberedUpTo, Link.Orderly;
      hide Link.Traced;
      var status := SetTrendAttributes(sampleRateUs, 0, t);
      NothingBound(tags);
      HalfBuilt(base, t, 0);
      if status.Err? {
        return Threw(status.error);
      }
      if status.value != 0 {
        Rollback(0, t);
        OwnsNothing(link.table);
        return Refused(status.value);
      }
      ghost var cur := t.(rate := sampleRateUs);
      r := AddTags(base, cur);
      if !r.Started? {
        return;
      }
      cur := cur.(bound := Bindings(tags));
      HalfBuilt(base, cur, 0);
      r := Launch(cur);
      if r.Refused? {
        OwnsNothing(link.table);
      } else {
        FullyBuilt(base, cur.(running := running));
        assert link.table == base[instanceId := cur.(running := running)];
      }
    }

    // The last step of start: the trend is started, or unwound when the PLC refuses.
    method Launch(ghost t: Trend) returns (r: StartResult)
      requires Holds(t) && !t.running && t.bound == Bindings(tags) && DistinctNumbers(tags)
      requires AllBound(tags) && tags != [] && !running
      modifies this`running, this`instanceId, link
      ensures link.Valid() && Names() == old(Names())
      ensures r.Started? ==>
        && running && instanceId == old(instanceId) && link.log == old(link.log) + [StartTrend(instanceId)]
        && link.table == old(link.table)[instanceId := t.(running := true)]
      ensures r.Refused? ==> !running && instanceId == 0 && link.table == old(link.table) - {old(instanceId)}
      ensures r.Threw? ==> !running && instanceId == old(instanceId) && link.table == old(link.table)
      ensures link.Orderly() ==> r.Started?
      ensures link.failures == old(link.failures) + (if r.Started? then 0 else 1)
      ensures link.lostReads == old(link.lostReads)
    {
      hide Bindings, DistinctNumbers, Removals, Link.Traced;
      AllBoundIsNonEmpty(tags);
      assert tags[..|tags|] == tags;
      var status := StartTrendObject(t);
      if status.Err? {
        return Threw(status.error);
      }
      if status.value != 0 {
        Rollback(|tags|, t);
        return Refused(status.value);
      }
      running := true;
      r := Started;
    }

    // With the first i tags bound, the trend is owned but not running.
    lemma HalfBuilt(base: Table, t: Trend, i: nat)
      requires 0 < instanceId < 0x1_0000 && instanceId !in base && !running && !t.running && i <= |tags|
      ensures base[instanceId := t] - {instanceId} == base
      ensures BoundUpTo(tags, i) && t.bound == Bindings(tags[..i]) && DistinctNumbers(tags[..i]) ==>
        OwnsIn(base[instanceId := t])
    {
      hide Bindings, DistinctNumbers;
      if BoundUpTo(tags, i) { BindingsOfPrefix(tags, i); }
    }

    lemma OwnsNothing(table: Table)
      requires instanceId == 0 && !running && 0 !in table
      ensures OwnsIn(table) && table - {0} == table
    {
    }

    // With all tags bound it is owned, running or not.
    lemma FullyBuilt(base: Table, t: Trend)
      requires 0 < instanceId < 0x1_0000 && instanceId !in base && t.running == running
      requires t.bound == Bindings(tags) && DistinctNumbers(tags) && AllBound(tags) && tags != []
      ensures OwnsIn(base[instanceId := t]) && base[instanceId := t] - {instanceId} == base
    {
      hide Bindings, DistinctNumbers;
    }

    // The loop body of the binding loop: one tag is bound under the number the PLC reports.
    method BindTag(i: nat, ghost t: Trend) returns (status: Result<uint8>)
      requires i < |tags| && Holds(t) && !t.running
      requires t.bound == Bindings(tags[..i]) && DistinctNumbers(tags[..i]) && BoundUpTo(tags, i)
      modifies this`tags, this`lastTagNumber, link
      ensures link.Valid() && Names() == old(Names())
      ensures status == Ok(0) ==>
        && BoundUpTo(tags, i + 1) && DistinctNumbers(tags[..i + 1]) && Holds(t.(bound := Bindings(tags[..i + 1])))
        && link.table == old(link.table)[instanceId := t.(bound := Bindings(tags[..i + 1]))]
        && link.log == old(link.log) + [AddTag(instanceId, PathOf(tags[i].name))]
        && Adds(instanceId, tags, i + 1) == Adds(instanceId, old(tags), i) + [AddTag(instanceId, PathOf(tags[i].name))]
      ensures status != Ok(0) ==> tags == old(tags) && link.table == old(link.table)
      ensures link.Orderly() && Nameable(old(tags)[i].name) && i < 0xFFFF && old(NumberedUpTo(tags, i)) ==>
        status == Ok(0) && NumberedUpTo(tags, i + 1)
      ensures link.failures >= old(link.failures) && link.lostReads == old(link.lostReads)
      ensures status == Ok(0) ==> link.failures == old(link.failures)
      ensures status != Ok(0) ==> link.failures > old(link.failures) || !Nameable(old(tags)[i].name)
    {
      hide Bindings, DistinctNumbers, PathOf, SymbolicPath, Adds, Link.Traced;
      if NumberedUpTo(tags, i) { BindingsInOrder(tags[..i]); }
      status := AddTagTo(tags[i].name, t);
      if status == Ok(0) {
        BindNext(tags, i, lastTagNumber);
        tags := tags[i := tags[i].(tagNumber := lastTagNumber)];
        AddsIgnoreNumbers(instanceId, old(tags), tags, i);
        AddsNext(instanceId, tags, i);
      }
    }

    // A refused tag undoes everything.
    method UndoTags(k: nat, ghost base: Table, ghost t: Trend)
      requires k <= |tags| && Holds(t) && !t.running && !running && link.table == base[instanceId := t]
      requires instanceId !in base && t.bound == Bindings(tags[..k]) && DistinctNumbers(tags[..k]) && BoundUpTo(tags, k)
      modifies this`instanceId, link
      ensures link.Valid() && instanceId == 0 && OwnsIn(link.table) && link.table == link.table - {instanceId} == base
      ensures link.failures == old(link.failures) && link.lostReads == old(link.lostReads)
    {
      hide Bindings, DistinctNumbers, Removals, OwnsIn, BoundUpTo, Link.Traced;
      Rollback(k, t);
      OwnsNothing(link.table);
    }

    // The binding loop of start, with its rollback when a tag is refused.
    method AddTags(ghost base: Table, ghost t: Trend) returns (r: StartResult)
      requires Holds(t) && !t.running && t.bound == map[] && NoneBound(tags) && !running
      requires instanceId !in base && link.table == base[instanceId := t]
      modifies this`tags, this`lastTagNumber, this`instanceId, link
      ensures link.Valid() && Names() == old(Names())
      ensures r.Started? ==>
        && instanceId == old(instanceId) && AllBound(tags) && DistinctNumbers(tags)
        && Holds(t.(bound := Bindings(tags))) && link.table == base[instanceId := t.(bound := Bindings(tags))]
        && link.log == old(link.log) + Adds(instanceId, tags, |tags|)
      ensures !r.Started? ==> OwnsIn(link.table) && instanceId !in base && link.table - {instanceId} == base
      ensures r.Refused? ==> instanceId == 0
      ensures link.Orderly() && AllNameable(Names()) && |tags| <= 0xFFFF ==> r.Started? && NumberedUpTo(tags, |tags|)
      ensures r.Started? ==> link.failures == old(link.failures)
      ensures link.failures >= old(link.failures)
      ensures !r.Started? ==> link.failures > old(link.failures) || !AllNameable(Names())
      ensures link.lostReads == old(link.lostReads)
    {
      hide Bindings, DistinctNumbers, PathOf, Removals, Adds, AllNameable, Nameable, OwnsIn, Link.Traced;
      hide Link.Orderly, BoundUpTo, NumberedUpTo, NoneBound, AllBound, TrendInstance.Names;
      ghost var cur, id := t, instanceId;
      ghost var names, tidy := Names(), link.Orderly() && AllNameable(Names()) && |tags| <= 0xFFFF;
      NothingBound(tags);
      NoAdds(id, tags);
      assert link.log + [] == link.log;
      for i := 0 to |tags|
        invariant link.lostReads == old(link.lostReads)
        invariant link.failures == old(link.failures)
        invariant |tags| == |old(tags)| && Names() == names
        invariant BoundUpTo(tags, i)
        invariant tidy ==> NumberedUpTo(tags, i)
        invariant instanceId == id && cur == t.(bound := Bindings(tags[..i])) && DistinctNumbers(tags[..i])
        invariant Holds(cur) && link.table == base[id := cur]
        invariant link.log == old(link.log) + Adds(id, tags, i)
      {
        OneOfThem(names, i);
        var status := BindTag(i, cur);
        HalfBuilt(base, cur, i);
        if status.Err? {
          return Threw(status.error);
        }
        if status.value != 0 {
          UndoTags(i, base, cur);
          return Refused(status.value);
        }
        cur := cur.(bound := Bindings(tags[..i + 1]));
      }
      assert tags[..|tags|] == tags;
      NothingBound(tags);
      r := Started;
    }

    // Whatever state a start has left, this puts the PLC back to what it was without the trend, in the
    // order the PLC insists on. Stopping again does nothing.
    method Stop()
      requires link.Valid() && OwnsIn(link.table)
      modifies this`running, this`instanceId, link
      ensures link.Valid() && !running && instanceId == 0
      ensures link.table == old(link.table) - {old(instanceId)}
      ensures link.log == old(link.log)
              + (if old(instanceId) == 0 then [] else TakeDown(old(instanceId), old(running), tags))
      ensures link.failures == old(link.failures)
      ensures link.lostReads == old(link.lostReads)
    {
      hide Bindings, DistinctNumbers, Link.Traced;
      if !running && instanceId == 0 {
        assert link.log + [] == link.log && link.table - {0} == link.table;
        return;
      }
      ghost var id, cur := instanceId, link.table[instanceId];
      assert link.table == link.table[id := cur];
      ghost var stop: seq<Request> := [];
      assert link.log + [] == link.log;
      if running {
        var _ := StopTrendObject(cur);
        cur := cur.(running := false);
        stop := [StopTrend(id)];
        running := false;
      }
      if instanceId != 0 {
        ghost var mid := link.log;
        Unbind(cur);
        cur := cur.(bound := map[]);
        var _ := DeleteTrend(cur);
        instanceId := 0;
        Regroup(old(link.log), stop, Removals(id, tags, |tags|));
        Regroup(old(link.log), stop + Removals(id, tags, |tags|), [Delete(id)]);
      }
    }

    // The unbinding loop of stop: tags without a number are passed over.
    method Unbind(ghost t: Trend)
      requires Holds(t) && !t.running && t.bound == Bindings(tags) && DistinctNumbers(tags)
      modifies link
      ensures Holds(t.(bound := map[]))
      ensures link.table == old(link.table)[instanceId := t.(bound := map[])]
      ensures link.log == old(link.log) + Removals(instanceId, tags, |tags|)
      ensures link.failures == old(link.failures)
      ensures link.lostReads == old(link.lostReads)
    {
      hide Bindings, DistinctNumbers, Link.Traced;
      var i := |tags|;
      ghost var cur := t;
      assert tags[..|tags|] == tags;
      while i > 0
        invariant link.lostReads == old(link.lostReads)
        invariant link.failures == old(link.failures)
        invariant 0 <= i <= |tags|
        invariant Holds(cur) && cur == t.(bound := Bindings(tags[..i])) && DistinctNumbers(tags[..i])
        invariant link.table == old(link.table)[instanceId := cur]
        invariant link.log + Removals(instanceId, tags, i) == old(link.log) + Removals(instanceId, tags, |tags|)
      {
        UnbindLast(tags, i);
        if tags[i - 1].tagNumber != 0 {
          ghost var log := link.log;
          var _ := RemoveTagFrom(tags[i - 1].tagNumber, cur);
          Regroup(log, [RemoveTag(instanceId, tags[i - 1].tagNumber)], Removals(instanceId, tags, i - 1));
          cur := cur.(bound := cur.bound - {tags[i - 1].tagNumber});
        } else {
          assert [] + Removals(instanceId, tags, i - 1) == Removals(instanceId, tags, i - 1);
        }
        i := i - 1;
      }
      NothingBound(tags);
      assert link.log + [] == link.log;
    }

    function Types(): (types: seq<uint16>)
      reads this
      ensures |types| == |tags| && forall i | 0 <= i < |tags| :: types[i] == tags[i].dataType
    {
      seq(|tags|, i requires 0 <= i < |tags| reads this => tags[i].dataType)
    }

    // An exception when the request is lost; no samples when the PLC refuses; otherwise what the PLC
    // returned, decoded.
    method ReadSamples() returns (r: Result<seq<TrendSample>>)
      requires link.Valid() && OwnsIn(link.table)
      modifies link
      ensures link.Valid() && link.table == old(link.table)
      ensures link.clock == old(link.clock) + (if running then 1 else 0)
      ensures link.log == old(link.log) + (if running then [TrendMessages.ReadData(instanceId)] else [])
      ensures r == if !running then Ok([])
                   else match link.verdicts(old(link.clock))
                     case Drop => Err(ConnectionLost)
                     case Refuse(_) => Ok([])
                     case Obey(_, samples) => Ok(SamplesFrom(samples, 0, Types()))
      ensures r.Ok? ==> forall k | 0 <= k < |r.value| :: r.value[k].tagIndex < |tags|
      ensures link.failures >= old(link.failures) + (if r.Err? then 1 else 0)
      ensures link.lostReads == old(link.lostReads) + (if r.Err? then 1 else 0)
    {
      hide CipStatus, Answer, Reply, SamplesFrom;
      if !running || instanceId == 0 {
        assert link.log + [] == link.log;
        return Ok([]);
      }
      ghost var req := TrendMessages.ReadData(instanceId);
      ReadAnswers(link.table, instanceId, link.Next(req));
      var resp :- Send(0x4C, AsInt32(instanceId), [], req);
      var cip := ParseCipStatus(resp);
      var samples := DecodeSamples(cip.data, Types());
      NoData(Types());
      r := Ok(samples);
    }
  }

  lemma NoData(types: seq<uint16>)
    ensures SamplesFrom([], 0, types) == []
  {
  }

  lemma ReadAnswers(table: Table, id: uint16, v: Verdict)
    requires Lawful(table, TrendMessages.ReadData(id))
    ensures var out := Execute(table, TrendMessages.ReadData(id), v);
            && out.table == table
            && match v
               case Drop => out.reply == Err(ConnectionLost)
               case Refuse(_) => out.reply.Ok? && CipStatus(out.reply.value).data == []
               case Obey(_, samples) => out.reply.Ok? && CipStatus(out.reply.value).data == samples
  {
  }

  lemma NothingBound(tags: seq<TagEntry>)
    ensures Bindings(tags[..0]) == map[] && DistinctNumbers(tags[..0])
    ensures NoneBound(tags) ==> BoundUpTo(tags, 0)
    ensures BoundUpTo(tags, |tags|) ==> AllBound(tags)
    ensures NumberedUpTo(tags, 0)
  {
  }

  // Requests answered with a status alone: carried out with status 0, or not at all.
  lemma StatusOnly(table: Table, r: Request, v: Verdict)
    requires Lawful(table, r) && !r.Create? && !r.AddTag? && !r.ReadData?
    ensures var out := Execute(table, r, v);
            && (IsCleanUp(r) || v.Obey? ==> out.reply.Ok? && CipStatus(out.reply.value).status == 0)
            && (out.reply.Err? ==> out.table == table)
            && (out.reply.Ok? ==>
                  var status := CipStatus(out.reply.value).status;
                  && (status == 0 ==> out.table == Perform(table, r, 0, []).table)
                  && (status != 0 ==> out.table == table))
  {
    hide CipStatus, Answer;
    AnswerRead(r, 0, []);
    if !IsCleanUp(r) && v.Refuse? { AnswerRead(r, v.code, []); }
  }

  lemma AddAnswers(table: Table, id: uint16, path: bytes, v: Verdict)
    requires Lawful(table, AddTag(id, path))
    ensures var out := Execute(table, AddTag(id, path), v);
            && (out.reply.Err? ==> out.table == table)
            && (CarriesOut(v, table, AddTag(id, path)) && HasNext(table[id].bound) ==>
                 && out.reply.Ok? && CipStatus(out.reply.value).status == 0
                 && CipStatus(out.reply.value).data == LE16(|table[id].bound| + 1))
            && (out.reply.Ok? ==>
                 var cip := CipStatus(out.reply.value);
                 if cip.status == 0 then
                   && |cip.data| >= 2
                   && var n := ReadU16(cip.data, 0);
                      && n != 0 && n !in table[id].bound
                      && out.table == table[id := table[id].(bound := table[id].bound[n := path])]
                 else out.table == table)
  {
    hide CipStatus, Answer, LE16, ReadU16;
    var r := AddTag(id, path);
    AnswerRead(r, 0x02, []);
    match v
    case Obey(pick, _) =>
      AnswerRead(r, 0, LE16(pick));
      ReadU16OfLE16(LE16(pick), 0, pick);
    case Refuse(code) => AnswerRead(r, code, []);
    case Drop =>
  }

  // What creating can come to.
  lemma CreateAnswers(table: Table, size: uint32, v: Verdict)
    requires 0 !in table
    ensures CarriesOut(v, table, Create(size)) && |table| < 0xFFFF ==>
      var out := Execute(table, Create(size), v); out.reply.Ok? && CipStatus(out.reply.value).status == 0
    ensures var out := Execute(table, Create(size), v);
            out.reply.Ok? ==>
              var cip := CipStatus(out.reply.value);
              if cip.status == 0 then
                && |cip.data| >= 4
                && var id := ReadU32(cip.data, 0);
                   0 < id < 0x1_0000 && id !in table && out.table == table[id := Trend(size, 0, false, map[])]
              else out.table == table
  {
    hide CipStatus, Answer, LE32, ReadU32;
    AnswerRead(Create(size), 0x02, []);
    match v
    case Obey(pick, _) =>
      AnswerRead(Create(size), 0, LE32(pick));
      ReadU32OfLE32(LE32(pick), 0, pick);
    case Refuse(code) => AnswerRead(Create(size), code, []);
    case Drop =>
  }
}
