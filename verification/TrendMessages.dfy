// The CIP trend object (class 0xB2): the requests the client sends, how a device reads them, and the
// records a read returns.
module TrendMessages {
  import opened Bytes
  import opened CipPath
  import opened TimeSeries

  const TREND_CLASS: uint16 := 0xB2

  datatype Request =
    | Create(bufferSize: uint32)
    | SetAttributes(id: uint16, rate: uint32, state: uint8)
    | AddTag(id: uint16, path: bytes)
    | StartTrend(id: uint16)
    | StopTrend(id: uint16)
    | RemoveTag(id: uint16, number: uint16)
    | Delete(id: uint16)
    | ReadData(id: uint16)

  function Service(r: Request): uint8 {
    match r
    case Create(_) => 0x08
    case SetAttributes(_, _, _) => 0x04
    case AddTag(_, _) => 0x4E
    case StartTrend(_) => 0x06
    case StopTrend(_) => 0x07
    case RemoveTag(_, _) => 0x4F
    case Delete(_) => 0x09
    case ReadData(_) => 0x4C
  }

  // Create goes to the class, instance 0.
  function Target(r: Request): uint16 { if r.Create? then 0 else r.id }

  function Body(r: Request): bytes {
    match r
    case Create(size) => LE16(2) + LE16(8) + LE32(size) + LE16(3) + [1]
    case SetAttributes(_, rate, state) => LE16(2) + LE16(1) + LE32(rate) + LE16(5) + [state]
    case AddTag(_, path) => LE16(1) + [1, 1, ToU8(|path| / 2)] + path + LE32(0xFFFF_FFFF)
    case RemoveTag(_, number) => LE16(number)
    case StartTrend(_) => []
    case StopTrend(_) => []
    case Delete(_) => []
    case ReadData(_) => []
  }

  // Service, path length in words, path, data.
  function Message(service: uint8, path: bytes, data: bytes): bytes {
    [service, ToU8(|path| / 2)] + path + data
  }

  function Encode(r: Request): bytes { Message(Service(r), LogicalPath(TREND_CLASS, Target(r)), Body(r)) }

  // ---- the device's reader ----

  function DecodeBody(service: uint8, id: uint16, data: bytes): Option<Request> {
    if service == 0x08 && id == 0 && |data| == 11 && data[..4] == LE16(2) + LE16(8) && data[8..] == LE16(3) + [1] then
      Some(Create(ReadU32(data, 4)))
    else if service == 0x04 && |data| == 11 && data[..4] == LE16(2) + LE16(1) && data[8..10] == LE16(5) then
      Some(SetAttributes(id, ReadU32(data, 4), data[10]))
    else if service == 0x4E then DecodeAddTag(id, data)
    else if service == 0x4F && |data| == 2 then Some(RemoveTag(id, ReadU16(data, 0)))
    else if data != [] then None
    else if service == 0x06 then Some(StartTrend(id))
    else if service == 0x07 then Some(StopTrend(id))
    else if service == 0x09 then Some(Delete(id))
    else if service == 0x4C then Some(ReadData(id))
    else None
  }

  // The tag path must have the announced length; a longer one does not fit and is not understood.
  function DecodeAddTag(id: uint16, data: bytes): Option<Request> {
    if |data| >= 9 && data[..4] == LE16(1) + [1, 1] && |data| == 9 + 2 * (data[4] as int)
       && data[|data| - 4..] == LE32(0xFFFF_FFFF)
    then Some(AddTag(id, data[5..|data| - 4]))
    else None
  }

  function Decode(msg: bytes): Option<Request> {
    if |msg| < 2 then None
    else match DecodeClassInstance(msg[2..])
      case None => None
      case Some((cipClass, id, data)) =>
        if cipClass == 0xB2 && |msg| == 2 + 2 * (msg[1] as int) + |data| then DecodeBody(msg[0], id, data)
        else None
  }

  predicate Encodable(r: Request) {
    r.AddTag? ==> |r.path| % 2 == 0 && |r.path| <= 510
  }

  lemma {:induction false} CreateRoundTrip(size: uint32)
    ensures DecodeBody(0x08, 0, Body(Create(size))) == Some(Create(size))
  {
  }

  lemma {:induction false} SetAttributesRoundTrip(id: uint16, rate: uint32, state: uint8)
    ensures DecodeBody(0x04, id, Body(SetAttributes(id, rate, state))) == Some(SetAttributes(id, rate, state))
  {
  }

  lemma {:induction false} BodyRoundTrip(r: Request)
    requires Encodable(r)
    ensures DecodeBody(Service(r), Target(r), Body(r)) == Some(r)
  {
    match r
    case Create(size) => CreateRoundTrip(size);
    case SetAttributes(id, rate, state) => SetAttributesRoundTrip(id, rate, state);
    case AddTag(id, path) => AddTagRoundTrip(id, path);
    case RemoveTag(_, number) => ReadU16OfLE16(Body(r), 0, number);
    case _ =>
  }

  lemma {:induction false} AddTagRoundTrip(id: uint16, path: bytes)
    requires |path| % 2 == 0 && |path| <= 510
    ensures DecodeAddTag(id, Body(AddTag(id, path))) == Some(AddTag(id, path))
  {
  }

  // The device understands every request the client builds.
  lemma {:induction false} RequestRoundTrip(r: Request)
    requires Encodable(r)
    ensures Decode(Encode(r)) == Some(r)
  {
    hide LogicalPath, Body, DecodeBody;
    var path, data := LogicalPath(TREND_CLASS, Target(r)), Body(r);
    ClassInstanceRoundTrip(TREND_CLASS, Target(r), data);
    var msg := Encode(r);
    assert msg[2..] == path + data;
    BodyRoundTrip(r);
  }

  // A tag path too long for its length byte is not mistaken for another one.
  lemma {:induction false} OversizedPathRefused(id: uint16, path: bytes)
    requires |path| % 2 == 0 && |path| > 510
    ensures Decode(Encode(AddTag(id, path))) == None
  {
    hide LogicalPath, DecodeAddTag, Body;
    var r := AddTag(id, path);
    ClassInstanceRoundTrip(TREND_CLASS, id, Body(r));
    assert Encode(r)[2..] == LogicalPath(TREND_CLASS, id) + Body(r);
    OversizedBody(id, path);
  }

  lemma {:induction false} OversizedBody(id: uint16, path: bytes)
    requires |path| % 2 == 0 && |path| > 510
    ensures DecodeAddTag(id, Body(AddTag(id, path))) == None
  {
  }

  // ---- sample records ----

  // One record as the PLC writes it: tag number, time stamp, four bytes of value.
  type Raw = b: bytes | |b| == 4 witness [0, 0, 0, 0]
  datatype Record = Record(number: uint16, ts: uint32, raw: Raw)

  function EncodeRecord(r: Record): (b: bytes)
    ensures |b| == 10
  {
    LE16(r.number) + LE32(r.ts) + r.raw
  }

  function EncodeRecords(rs: seq<Record>): (b: bytes)
    ensures |b| == 10 * |rs|
  {
    if rs == [] then [] else EncodeRecord(rs[0]) + EncodeRecords(rs[1..])
  }

  datatype TrendSample = TrendSample(tagIndex: nat, timestamp: uint32, value: Value)

  function Signed(v: nat, half: nat): int { if v < half then v else v - 2 * half }

  // Integer types by their width and sign; everything else as four unsigned bytes, a REAL as its bits.
  function Interpret(raw: bytes, dataType: uint16): Value
    requires |raw| == 4
  {
    if dataType == 0xC1 || dataType == 0xC6 then Exact(raw[0] as int)
    else if dataType == 0xC2 then Exact(Signed(raw[0] as int, 0x80))
    else if dataType == 0xC3 then Exact(Signed(ReadU16(raw, 0) as int, 0x8000))
    else if dataType == 0xC7 then Exact(ReadU16(raw, 0) as int)
    else if dataType == 0xC4 then Exact(Signed(ReadU32(raw, 0) as int, 0x8000_0000))
    else if dataType == 0xCA then Single(ReadU32(raw, 0))
    else Exact(ReadU32(raw, 0) as int)
  }

  // The sample a record stands for; numbers start at 1 and unknown ones are skipped.
  function SampleOf(number: uint16, ts: uint32, raw: bytes, types: seq<uint16>): seq<TrendSample>
    requires |raw| == 4
  {
    if number == 0 || number > |types| then []
    else [TrendSample(number - 1, ts, Interpret(raw, types[number - 1]))]
  }

  // Whole records from offset i on; a partial one at the end is ignored.
  function SamplesFrom(data: bytes, i: nat, types: seq<uint16>): seq<TrendSample>
    decreases |data| - i
  {
    if i + 10 > |data| then []
    else SampleOf(ReadU16(data, i), ReadU32(data, i + 2), data[i + 6..i + 10], types) + SamplesFrom(data, i + 10, types)
  }

  lemma {:induction false} SamplesStep(data: bytes, i: nat, types: seq<uint16>)
    ensures SamplesFrom(data, i, types)
         == if i + 10 > |data| then []
            else SampleOf(ReadU16(data, i), ReadU32(data, i + 2), data[i + 6..i + 10], types)
                 + SamplesFrom(data, i + 10, types)
  {
  }

  method DecodeSamples(data: bytes, types: seq<uint16>) returns (samples: seq<TrendSample>)
    ensures samples == SamplesFrom(data, 0, types)
    ensures forall k | 0 <= k < |samples| :: samples[k].tagIndex < |types|
  {
    hide Interpret, ReadU32, ReadU16, SamplesFrom;
    samples := [];
    SamplesStep(data, 0, types);
    if |data| >= 10 {
      var i: nat := 0;
      while i + 10 <= |data|
        invariant SamplesFrom(data, 0, types) == samples + SamplesFrom(data, i, types)
        invariant forall k | 0 <= k < |samples| :: samples[k].tagIndex < |types|
      {
        var number := ReadU16(data, i);
        ghost var here := SampleOf(number, ReadU32(data, i + 2), data[i + 6..i + 10], types);
        SamplesStep(data, i, types);
        Regroup(samples, here, SamplesFrom(data, i + 10, types));
        if number != 0 && number <= |types| {
          var index := number - 1;
          samples := samples + [TrendSample(index, ReadU32(data, i + 2), Interpret(data[i + 6..i + 10], types[index]))];
        }
        i := i + 10;
      }
      SamplesStep(data, i, types);
    }
  }

  function SamplesOf(rs: seq<Record>, types: seq<uint16>): seq<TrendSample> {
    if rs == [] then [] else SampleOf(rs[0].number, rs[0].ts, rs[0].raw, types) + SamplesOf(rs[1..], types)
  }

  lemma {:induction false} RecordAt(data: bytes, i: nat, r: Record, more: bytes)
    requires i <= |data| && data[i..] == EncodeRecord(r) + more
    ensures i + 10 <= |data| && ReadU16(data, i) == r.number && ReadU32(data, i + 2) == r.ts
    ensures data[i + 6..i + 10] == r.raw && data[i + 10..] == more
  {
  }

  // A response decodes to the samples of its whole records with a known number, in order; a record cut
  // short at its end is left out.
  lemma {:induction false} SamplesOfRecords(data: bytes, i: nat, rs: seq<Record>, cut: bytes, types: seq<uint16>)
    requires i <= |data| && data[i..] == EncodeRecords(rs) + cut && |cut| < 10
    ensures SamplesFrom(data, i, types) == SamplesOf(rs, types)
    decreases |rs|
  {
    hide SampleOf, EncodeRecord, ReadU32, ReadU16;
    if rs != [] {
      Regroup(EncodeRecord(rs[0]), EncodeRecords(rs[1..]), cut);
      RecordAt(data, i, rs[0], EncodeRecords(rs[1..]) + cut);
      SamplesOfRecords(data, i + 10, rs[1..], cut, types);
    }
  }

  // ---- attribution ----

  // Records are attributed correctly when each one with the PLC's number for a tag yields one sample,
  // of that tag.
  ghost predicate AttributesCorrectly(numbers: seq<uint16>, types: seq<uint16>)
    requires |numbers| == |types|
  {
    forall i: nat, ts: uint32, raw: Raw | i < |numbers| ::
      |SampleOf(numbers[i], ts, raw, types)| == 1 && SampleOf(numbers[i], ts, raw, types)[0].tagIndex == i
  }

  // The reader goes by position and never looks at the numbers the PLC assigned: it is right exactly
  // when the PLC numbered the tags 1, 2, 3, ... in the order they were added.
  lemma {:induction false} AttributionExactlyWhen(numbers: seq<uint16>, types: seq<uint16>)
    requires |numbers| == |types|
    ensures AttributesCorrectly(numbers, types) <==> forall i | 0 <= i < |numbers| :: numbers[i] == i + 1
  {
    if AttributesCorrectly(numbers, types) {
      forall i | 0 <= i < |numbers| ensures numbers[i] == i + 1 {
        assert |SampleOf(numbers[i], 0, [0, 0, 0, 0], types)| == 1;
      }
    }
  }

  // ---- integer values ----

  // How the PLC lays out a value in the four bytes; those beyond the width of its type may hold anything.
  function RawInt(v: int, dataType: uint16, other: Raw): Raw {
    if dataType == 0xC1 || dataType == 0xC6 || dataType == 0xC2 then [v % 0x100] + other[1..]
    else if dataType == 0xC3 || dataType == 0xC7 then LE16(v % 0x1_0000) + other[2..]
    else LE32(v % 0x1_0000_0000)
  }

  predicate InRange(v: int, dataType: uint16) {
    if dataType == 0xC1 || dataType == 0xC6 then 0 <= v < 0x100
    else if dataType == 0xC2 then -0x80 <= v < 0x80
    else if dataType == 0xC3 then -0x8000 <= v < 0x8000
    else if dataType == 0xC7 then 0 <= v < 0x1_0000
    else if dataType == 0xC4 then -0x8000_0000 <= v < 0x8000_0000
    else 0 <= v < 0x1_0000_0000
  }

  // A REAL arrives as its four bytes, read as single precision; no other type does.
  lemma {:induction false} RealRoundTrip(bits: uint32, dataType: uint16)
    ensures Interpret(LE32(bits), 0xCA) == Single(bits)
    ensures dataType != 0xCA ==> Interpret(LE32(bits), dataType).Exact?
  {
    hide LE32, ReadU32;
    assert LE32(bits)[0..4] == LE32(bits);
    ReadU32OfLE32(LE32(bits), 0, bits);
  }

  lemma SignedBack(v: int, half: nat)
    requires half == 0x80 || half == 0x8000 || half == 0x8000_0000
    ensures 0 <= v < 2 * half ==> v % (2 * half) == v
    ensures 0 <= v + half < 2 * half ==> Signed(v % (2 * half), half) == v
  {
  }

  // Every integer value in the range of its type survives, whatever the unused bytes hold.
  lemma {:induction false} IntegerRoundTrip(v: int, dataType: uint16, other: Raw)
    requires dataType != 0xCA && InRange(v, dataType)
    ensures Interpret(RawInt(v, dataType, other), dataType) == Exact(v)
  {
    hide ReadU16, ReadU32, LE16, LE32, Signed;
    var raw := RawInt(v, dataType, other);
    if dataType == 0xC3 || dataType == 0xC7 {
      SignedBack(v, 0x8000);
      assert raw[0..2] == LE16(v % 0x1_0000);
      ReadU16OfLE16(raw, 0, v % 0x1_0000);
    } else if dataType == 0xC1 || dataType == 0xC6 || dataType == 0xC2 {
      SignedBack(v, 0x80);
      assert raw[0] == v % 0x100;
    } else {
      SignedBack(v, 0x8000_0000);
      assert raw[0..4] == LE32(v % 0x1_0000_0000);
      ReadU32OfLE32(raw, 0, v % 0x1_0000_0000);
    }
  }
}
