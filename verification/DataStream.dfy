// The streamer: cutting the selected tags into trend instances, starting them all or none, polling
// them into time series, and taking them down.
module DataStreams {
  import opened Bytes
  import CipPath
  import opened Sizing
  import opened TimeSeries
  import opened TrendMessages
  import opened TrendPlc
  import opened TrendInstances

  type Tags = seq<(bytes, uint16)>

  // ---- what the PLC holds for a list of running instances ----

  // Each instance owns one trend; without them all the PLC's table is `base`.
  ghost predicate Layered(ts: seq<TrendInstance>, link: Link, table: Table, base: Table)
    reads ts
  {
    if ts == [] then table == base
    else
      && ts[0].link == link && ts[0].running && ts[0].instanceId != 0 && ts[0].OwnsIn(table)
      && ts[0] !in ts[1..]
      && Layered(ts[1..], link, table - {ts[0].instanceId}, base)
  }

  lemma FirstLayer(ts: seq<TrendInstance>, k: nat, link: Link, table: Table, base: Table)
    requires k < |ts| && Layered(ts[k..], link, table, base)
    ensures ts[k].link == link && ts[k].running && 0 < ts[k].instanceId < 0x1_0000 && ts[k].OwnsIn(table)
    ensures ts[k] !in ts[k + 1..] && Layered(ts[k + 1..], link, table - {ts[k].instanceId}, base)
  {
    hide Bindings, DistinctNumbers;
    assert ts[k..][1..] == ts[k + 1..];
  }

  lemma NoLayers(link: Link, table: Table, base: Table)
    requires Layered([], link, table, base)
    ensures table == base
  {
  }

  lemma OwnsStill(t: TrendInstance, table: Table, above: Table, id: uint16)
    requires t.OwnsIn(table) && above - {id} == table
    ensures t.OwnsIn(above)
  {
  }

  lemma RemoveBoth(above: Table, a: uint16, b: uint16)
    ensures above - {a} - {b} == above - {b} - {a}
  {
  }

  // A further instance with a trend of its own goes on top.
  lemma {:induction false} PushLayer(ts: seq<TrendInstance>, t: TrendInstance, link: Link, above: Table, base: Table)
    requires Layered(ts, link, above - {t.instanceId}, base) && t !in ts
    requires t.link == link && t.running && t.instanceId != 0 && t.OwnsIn(above)
    ensures Layered(ts + [t], link, above, base)
  {
    hide Bindings, DistinctNumbers;
    if ts == [] {
      assert [t][1..] == [];
    } else {
      var id := ts[0].instanceId;
      assert (ts + [t])[1..] == ts[1..] + [t];
      OwnsStill(ts[0], above - {t.instanceId}, above, t.instanceId);
      RemoveBoth(above, id, t.instanceId);
      assert t.OwnsIn(above - {id});
      PushLayer(ts[1..], t, link, above - {id}, base);
    }
  }

  lemma {:induction false} LayersShow(ts: seq<TrendInstance>, link: Link, table: Table, base: Table)
    requires Layered(ts, link, table, base) && ts != []
    ensures ts[0].instanceId in table && ts[0].instanceId !in base
    ensures table != base
  {
    LayersContain(ts[1..], link, table - {ts[0].instanceId}, base);
  }

  lemma {:induction false} LayersContain(ts: seq<TrendInstance>, link: Link, table: Table, base: Table)
    requires Layered(ts, link, table, base)
    ensures base.Keys <= table.Keys
  {
    if ts != [] { LayersContain(ts[1..], link, table - {ts[0].instanceId}, base); }
  }

  lemma {:induction false} LayeredIsRunning(ts: seq<TrendInstance>, link: Link, table: Table, base: Table, k: nat)
    requires Layered(ts, link, table, base) && k < |ts|
    ensures ts[k].link == link && ts[k].running && ts[k].OwnsIn(table)
  {
    if k > 0 {
      LayeredIsRunning(ts[1..], link, table - {ts[0].instanceId}, base, k - 1);
    }
  }

  // The PLC samples this instance's tags, all of them, at the given rate into the given buffer.
  ghost predicate SetUp(t: TrendInstance, table: Table, rate: uint32, bufferSize: uint32)
    reads t
  {
    t.instanceId in table && table[t.instanceId] == Trend(bufferSize, rate, true, Bindings(t.tags)) && AllBound(t.tags)
  }

  ghost predicate AllSetUp(ts: seq<TrendInstance>, table: Table, rate: uint32, bufferSize: uint32)
    reads ts
  {
    forall k | 0 <= k < |ts| :: SetUp(ts[k], table, rate, bufferSize)
  }

  // The instances hold these chunks of tags, in order.
  ghost predicate Named(ts: seq<TrendInstance>, chunks: seq<Tags>)
    reads ts
  {
    |ts| == |chunks| && forall k | 0 <= k < |ts| :: ts[k].Names() == chunks[k]
  }

  lemma PushSetUp(ts: seq<TrendInstance>, t: TrendInstance, chunks: seq<Tags>, above: Table, rate: uint32, size: uint32)
    requires Named(ts, chunks) && AllSetUp(ts, above - {t.instanceId}, rate, size) && SetUp(t, above, rate, size)
    ensures Named(ts + [t], chunks + [t.Names()]) && AllSetUp(ts + [t], above, rate, size)
  {
  }

  lemma NewIsSetUp(t: TrendInstance, table: Table, rate: uint32, size: uint32)
    requires t.OwnsIn(table) && t.running && t.instanceId != 0
    requires table[t.instanceId] == Trend(size, rate, true, Bindings(t.tags))
    ensures SetUp(t, table, rate, size)
  {
  }

  // ---- the requests of a session ----

  // A running instance, by the id of its trend and its tags.
  datatype Made = Made(id: uint16, tags: seq<TagEntry>)

  function MadeOf(ts: seq<TrendInstance>): (ms: seq<Made>)
    reads ts
    ensures |ms| == |ts|
  {
    seq(|ts|, k requires 0 <= k < |ts| reads ts => Made(ToU16(ts[k].instanceId), ts[k].tags))
  }

  // One read of each instance, in order.
  function ReadAll(ms: seq<Made>): (rs: seq<Request>)
    ensures |rs| == |ms|
  {
    seq(|ms|, k requires 0 <= k < |ms| => TrendMessages.ReadData(ms[k].id))
  }

  // A start that goes through: before each further instance is set up, all earlier ones are read.
  function SetUpAll(ms: seq<Made>, rate: uint32, bufferSize: uint32): seq<Request> {
    if ms == [] then []
    else
      var n := |ms| - 1;
      SetUpAll(ms[..n], rate, bufferSize) + ReadAll(ms[..n]) + BuildUp(ms[n].id, ms[n].tags, rate, bufferSize)
  }

  function ReadCycles(ms: seq<Made>, cycles: nat): seq<Request> {
    if cycles == 0 then [] else ReadCycles(ms, cycles - 1) + ReadAll(ms)
  }

  function TakeDownAll(ms: seq<Made>): seq<Request> {
    if ms == [] then [] else TakeDown(ms[0].id, true, ms[0].tags) + TakeDownAll(ms[1..])
  }

  // The requests of a start that stops at the read of instance k, with these instances set up.
  function SetUpToRead(ms: seq<Made>, rate: uint32, bufferSize: uint32, k: nat): seq<Request>
    requires k < |ms|
  {
    SetUpAll(ms, rate, bufferSize) + ReadAll(ms)[..k + 1]
  }

  lemma MadeAt(ts: seq<TrendInstance>, k: nat)
    requires k < |ts|
    ensures MadeOf(ts)[k] == Made(ToU16(ts[k].instanceId), ts[k].tags)
  {
  }

  lemma MadeSnoc(ts: seq<TrendInstance>, t: TrendInstance)
    ensures MadeOf(ts + [t]) == MadeOf(ts) + [Made(ToU16(t.instanceId), t.tags)]
  {
  }

  lemma MadeRest(ts: seq<TrendInstance>, k: nat)
    requires k <= |ts|
    ensures MadeOf(ts[k..]) == MadeOf(ts)[k..]
  {
  }

  lemma NoRequests(log: seq<Request>, ms: seq<Made>, rate: uint32, size: uint32)
    ensures log + SetUpAll([], rate, size) == log && log + ReadAll(ms)[..0] == log
    ensures log + ReadCycles(ms, 0) == log && log + TakeDownAll([]) == log && MadeOf([]) == []
  {
  }

  lemma SetUpNext(log: seq<Request>, ms: seq<Made>, m: Made, rate: uint32, size: uint32)
    ensures log + SetUpAll(ms, rate, size) + ReadAll(ms) + BuildUp(m.id, m.tags, rate, size)
         == log + SetUpAll(ms + [m], rate, size)
  {
    hide BuildUp, ReadAll;
    assert (ms + [m])[..|ms|] == ms;
  }

  lemma FirstTakenDown(log: seq<Request>, ts: seq<TrendInstance>, k: nat)
    requires k < |ts|
    ensures var ms := MadeOf(ts[k..]);
            log + TakeDown(ToU16(ts[k].instanceId), true, ts[k].tags) + TakeDownAll(ms[1..]) == log + TakeDownAll(ms)
  {
    hide TakeDown;
    MadeAt(ts[k..], 0);
    var ms := MadeOf(ts[k..]);
    Regroup(log, TakeDown(ms[0].id, true, ms[0].tags), TakeDownAll(ms[1..]));
  }

  lemma ReadNext(log: seq<Request>, ms: seq<Made>, k: nat)
    requires k < |ms|
    ensures log + ReadAll(ms)[..k] + [TrendMessages.ReadData(ms[k].id)] == log + ReadAll(ms)[..k + 1]
  {
  }

  lemma ReadCycleNext(log: seq<Request>, ms: seq<Made>, cycles: nat)
    ensures log + ReadCycles(ms, cycles) + ReadAll(ms) == log + ReadCycles(ms, cycles + 1)
  {
    hide ReadAll;
  }

  // ---- from decoded samples to observations ----

  function Tagged(names: Tags, samples: seq<TrendSample>, host: real): (ss: seq<Sample>)
    ensures forall k | 0 <= k < |ss| :: ss[k].obs.host == host
  {
    if samples == [] then []
    else
      var s := samples[|samples| - 1];
      Tagged(names, samples[..|samples| - 1], host)
      + (if s.tagIndex < |names| then [Sample(names[s.tagIndex].0, Obs(s.timestamp, s.value, host))] else [])
  }

  function TypesOf(names: Tags): (types: seq<uint16>)
    ensures |types| == |names| && forall i | 0 <= i < |names| :: types[i] == names[i].1
  {
    seq(|names|, i requires 0 <= i < |names| => names[i].1)
  }

  // What one read contributes.
  function Reading(names: Tags, v: Verdict, host: real): seq<Sample> {
    match v
    case Obey(_, samples) => Tagged(names, SamplesFrom(samples, 0, TypesOf(names)), host)
    case Refuse(_) => []
    case Drop => []
  }

  // What a cycle of reads contributes, when the first of them is request number `clock`.
  function Arrived(chunks: seq<Tags>, verdicts: nat -> Verdict, clock: nat, host: real): seq<Sample> {
    if chunks == [] then []
    else
      var n := |chunks| - 1;
      Arrived(chunks[..n], verdicts, clock, host) + Reading(chunks[n], verdicts(clock + n), host)
  }

  lemma ArrivedNext(chunks: seq<Tags>, i: nat, verdicts: nat -> Verdict, clock: nat, host: real)
    requires i < |chunks|
    ensures Arrived(chunks[..i + 1], verdicts, clock, host)
         == Arrived(chunks[..i], verdicts, clock, host) + Reading(chunks[i], verdicts(clock + i), host)
  {
    hide Reading;
    assert chunks[..i + 1][..i] == chunks[..i];
  }

  // ---- chunks ----

  function PerInstance(total: nat, rateUs: nat, connectionSize: nat): (per: nat)
    requires total > 0
    ensures per > 0
  {
    BalancedSizes(total, MaxTagsPerInstance(rateUs, connectionSize, MIN_FILL_MS));
    TagsPerInstance(total, MaxTagsPerInstance(rateUs, connectionSize, MIN_FILL_MS))
  }

  function BufferSize(connectionSize: uint32): uint32 {
    DivBounds(MaxPayload(connectionSize), RECORD_SIZE);
    BufferParams(0, RECORD_SIZE, 1, connectionSize).0
  }

  // The balanced chunks of the selected tags.
  function BalancedChunks(selected: Tags, rateUs: nat, connectionSize: nat): seq<Tags>
    requires selected != []
  {
    Chunks(selected, PerInstance(|selected|, rateUs, connectionSize))
  }

  // The sleep between cycles, in milliseconds.
  function Sleep(selected: Tags, rateUs: nat, connectionSize: nat): nat
    requires selected != []
  {
    PollInterval(FillTime(rateUs, connectionSize, PerInstance(|selected|, rateUs, connectionSize)),
                 |BalancedChunks(selected, rateUs, connectionSize)|)
  }

  function MaxCount(ts: seq<TrendInstance>): nat
    reads ts
  {
    if ts == [] then 0 else Max(|ts[0].tags|, MaxCount(ts[1..]))
  }

  lemma {:induction false} MaxCountIs(ts: seq<TrendInstance>, m: nat)
    requires ts != [] && forall k | 0 <= k < |ts| :: |ts[k].tags| <= m
    ensures |ts[0].tags| <= MaxCount(ts) <= m
  {
    if |ts| > 1 { MaxCountIs(ts[1..], m); }
  }

  // The tightest instance is the first one, with all the tags the balancing allows.
  lemma TightestInstance(ts: seq<TrendInstance>, selected: Tags, rateUs: nat, connectionSize: nat)
    requires selected != [] && Named(ts, BalancedChunks(selected, rateUs, connectionSize))
    ensures |ts| == |BalancedChunks(selected, rateUs, connectionSize)| > 0
    ensures MaxCount(ts) == PerInstance(|selected|, rateUs, connectionSize)
    ensures PollInterval(FillTime(rateUs, connectionSize, MaxCount(ts)), |ts|)
         == Sleep(selected, rateUs, connectionSize)
  {
    hide Chunks, MaxTagsPerInstance, NumInstances, TagsPerInstance;
    var chunks := BalancedChunks(selected, rateUs, connectionSize);
    BalancedShape(selected, rateUs, connectionSize);
    forall k | 0 <= k < |ts| ensures |ts[k].tags| == |chunks[k]| { assert |ts[k].Names()| == |chunks[k]|; }
    MaxCountIs(ts, PerInstance(|selected|, rateUs, connectionSize));
  }

  lemma BalancedShape(selected: Tags, rateUs: nat, connectionSize: nat)
    requires selected != []
    ensures var chunks := BalancedChunks(selected, rateUs, connectionSize);
            var per := PerInstance(|selected|, rateUs, connectionSize);
            && chunks != [] && |chunks[0]| == per && Flatten(chunks) == selected
            && forall i | 0 <= i < |chunks| :: 1 <= |chunks[i]| <= per
  {
    hide Chunks;
    var maxTags := MaxTagsPerInstance(rateUs, connectionSize, MIN_FILL_MS);
    BalancedPartition(selected, maxTags);
    var chunks := BalancedChunks(selected, rateUs, connectionSize);
    if |chunks| == 1 {
      OneChunk(chunks);
      CeilBounds(|selected|, 1);
    }
  }

  lemma OneChunk(chunks: seq<Tags>)
    requires |chunks| == 1
    ensures Flatten(chunks) == chunks[0]
  {
  }

  lemma NothingYet(link: Link, base: Table, rate: uint32, bufferSize: uint32)
    ensures Layered([], link, base, base) && Named([], []) && AllSetUp([], base, rate, bufferSize) && AllNumbered([])
  {
  }

  lemma SameBuffer(rateUs: nat, numTags: nat, connectionSize: uint32)
    ensures BufferParams(rateUs, RECORD_SIZE, numTags, connectionSize).0 == BufferSize(connectionSize)
  {
  }

  lemma SliceNameable(names: Tags, a: nat, b: nat)
    requires a <= b <= |names|
    ensures AllNameable(names) ==> AllNameable(names[a..b])
  {
    hide Nameable;
  }

  lemma ChunkCount(selected: Tags, maxTags: nat)
    requires selected != [] && maxTags > 0
    ensures var num, per := NumInstances(|selected|, maxTags), TagsPerInstance(|selected|, maxTags);
            per > 0 && |Chunks(selected, per)| == num >= 1
  {
    hide Chunks, NumInstances, TagsPerInstance;
    BalancedPartition(selected, maxTags);
  }

  // What is left of the tags at `offset` starts with chunk number i.
  lemma NextChunk(selected: Tags, offset: nat, per: nat, chunks: seq<Tags>, i: nat)
    requires per > 0 && offset <= |selected| && i < |chunks|
    requires Chunks(selected[offset..], per) == chunks[i..]
    ensures offset < |selected|
    ensures var size := Min(per, |selected| - offset);
            && 0 < size <= |selected| - offset && selected[offset..offset + size] == chunks[i] != []
            && selected[offset..] == chunks[i] + selected[offset + size..]
            && Chunks(selected[offset + size..], per) == chunks[i + 1..]
    ensures chunks[..i + 1] == chunks[..i] + [chunks[i]]
    ensures AllNameable(selected) ==> AllNameable(chunks[i])
  {
    hide AllNameable;
    SliceNameable(selected, offset, offset + Min(per, |selected| - offset));
  }

  lemma CutShort(log: seq<Request>, made: seq<Made>, rate: uint32, bufferSize: uint32, k: nat)
    requires k < |made|
    ensures k < |ReadAll(made)|
    ensures log + SetUpAll(made, rate, bufferSize) + ReadAll(made)[..k + 1]
         == log + SetUpToRead(made, rate, bufferSize, k)
  {
    Regroup(log, SetUpAll(made, rate, bufferSize), ReadAll(made)[..k + 1]);
  }

  // The PLC carries everything out, the names make paths, and there is room for a trend for each tag.
  ghost predicate Welcome(link: Link, table: Table, names: Tags) {
    link.Orderly() && AllNameable(names) && |table| + |names| <= 0xFFFF
  }

  // The tags of every instance have the numbers 1, 2, 3, ...
  ghost predicate AllNumbered(ts: seq<TrendInstance>)
    reads ts
  {
    forall k | 0 <= k < |ts| :: NumberedUpTo(ts[k].tags, |ts[k].tags|)
  }

  // One trend for the first of the tags still to come, and there is still room for the rest.
  lemma RestWelcome(link: Link, table: Table, above: Table, id: uint16, chunk: Tags, rest: Tags)
    requires Welcome(link, table, chunk + rest) && chunk != [] && id in above && above - {id} == table
    ensures Welcome(link, above, rest)
  {
    hide Nameable;
    assert above.Keys == table.Keys + {id};
    assert forall i | 0 <= i < |rest| :: rest[i] == (chunk + rest)[|chunk| + i];
  }

  lemma FirstWelcome(link: Link, table: Table, chunk: Tags, rest: Tags)
    requires Welcome(link, table, chunk + rest)
    ensures link.Orderly() && AllNameable(chunk) && |table| + |chunk| <= 0xFFFF
  {
    hide Nameable;
    assert forall i | 0 <= i < |chunk| :: chunk[i] == (chunk + rest)[i];
  }

  // A new instance with its trend set up goes on top of the others.
  lemma Push(ts: seq<TrendInstance>, t: TrendInstance, link: Link, above: Table, base: Table, chunks: seq<Tags>,
             rate: uint32, size: uint32)
    requires t !in ts && t.link == link && t.running && t.instanceId != 0 && t.OwnsIn(above)
    requires above[t.instanceId] == Trend(size, rate, true, Bindings(t.tags))
    requires Layered(ts, link, above - {t.instanceId}, base) && Named(ts, chunks)
    requires AllSetUp(ts, above - {t.instanceId}, rate, size)
    ensures Layered(ts + [t], link, above, base) && Named(ts + [t], chunks + [t.Names()])
    ensures AllSetUp(ts + [t], above, rate, size)
    ensures AllNumbered(ts) && NumberedUpTo(t.tags, |t.tags|) ==> AllNumbered(ts + [t])
    ensures MadeOf(ts + [t]) == MadeOf(ts) + [Made(ToU16(t.instanceId), t.tags)]
  {
    hide Layered, Named, AllSetUp, NumberedUpTo, Bindings, MadeOf;
    MadeSnoc(ts, t);
    PushLayer(ts, t, link, above, base);
    NewIsSetUp(t, above, rate, size);
    PushSetUp(ts, t, chunks, above, rate, size);
  }

  // A new instance, started. When that fails the instance may be left half built.
  method NewInstance(link: Link, chunk: Tags, sampleRateUs: uint32, bufferSize: uint32)
    returns (trend: TrendInstance, ok: bool)
    requires link.Valid() && chunk != []
    modifies link
    ensures fresh(trend) && trend.link == link && trend.Names() == chunk
    ensures link.Valid() && trend.OwnsIn(link.table) && link.table - {trend.instanceId} == old(link.table)
    ensures ok <==> trend.running
    ensures ok ==>
      && 0 < trend.instanceId < 0x1_0000 && trend.instanceId in link.table
      && link.table[trend.instanceId] == Trend(bufferSize, sampleRateUs, true, Bindings(trend.tags))
      && link.log == old(link.log) + BuildUp(trend.instanceId, trend.tags, sampleRateUs, bufferSize)
    ensures link.failures >= old(link.failures) && link.lostReads == old(link.lostReads)
    ensures !ok ==> link.failures > old(link.failures) || !AllNameable(chunk)
    ensures link.Orderly() && AllNameable(chunk) && |chunk| <= 0xFFFF && |old(link.table)| < 0xFFFF ==>
      ok && NumberedUpTo(trend.tags, |trend.tags|)
  {
    hide BuildUp, Bindings, DistinctNumbers, AllBound, NoneBound, AllNameable, NumberedUpTo, Link.Traced, Link.Orderly;
    trend := new TrendInstance(link, chunk);
    var r := trend.Start(sampleRateUs, bufferSize);
    ok := r.Started?;
  }

  // ---- the streamer ----

  // NoConnection and Refused are the `false` returns after a message box; Escaped is an exception that
  // leaves `start` because reading an already running instance failed.
  datatype StartOutcome = AlreadyRunning | NoConnection | Streaming | GaveUp | Escaped

  class DataStream {
    var running: bool
    // Whether there is a polling thread that has not been joined.
    var joinable: bool
    var pollIntervalMs: nat
    var conn: Link?
    var trends: seq<TrendInstance>
    var trendTime: map<bytes, TimeState>
    var numeric: map<bytes, seq<Point>>

    // The PLC's table when the session began, and every sample taken in since.
    ghost var base: Table
    ghost var seen: seq<Sample>

    constructor ()
      ensures Valid() && !running && !joinable && trends == [] && conn == null
      ensures pollIntervalMs == 200 && Plot() == EMPTY
    {
      running, joinable, pollIntervalMs, conn, trends := false, false, 200, null, [];
      trendTime, numeric := map[], map[];
      base, seen := map[], [];
    }

    ghost predicate Valid()
      reads this, conn, trends
    {
      && (running || trends != [] ==> conn != null && conn.Valid() && Layered(trends, conn, conn.table, base))
      && (running ==> joinable && trends != [] && PlotIsSeen())
      && (joinable ==> trends != [])
    }

    function Plot(): Axis
      reads `trendTime, `numeric
    {
      Axis(trendTime, numeric)
    }

    // The series are what the samples taken in amount to.
    ghost predicate PlotIsSeen()
      reads `trendTime, `numeric, `seen
    {
      Plot() == IngestAll(EMPTY, seen) && forall k | 0 <= k < |seen| :: seen[k].obs.host >= 0.0
    }

    // An exception that has left the start loop: the last request was a read of one of the instances set up
    // by then, and it was lost.
    ghost predicate EscapedReading(before: seq<Request>, rate: uint32, bufferSize: uint32)
      reads this, conn, trends
    {
      var made := MadeOf(trends);
      && conn != null && conn.clock > 0 && conn.verdicts(conn.clock - 1).Drop?
      && exists k: nat | k < |made| :: conn.log == before + SetUpToRead(made, rate, bufferSize, k)
    }

    // trends_.clear(): each instance is stopped as it is destroyed.
    method ClearTrends()
      requires conn != null && conn.Valid() && Layered(trends, conn, conn.table, base)
      modifies this`trends, conn, trends
      ensures trends == [] && conn.Valid() && conn.table == base
      ensures conn.failures == old(conn.failures)
      ensures conn.lostReads == old(conn.lostReads)
      ensures conn.log == old(conn.log) + TakeDownAll(old(MadeOf(trends)))
    {
      hide TakeDown, TakeDownAll, Link.Traced, MadeOf, Layered, TrendInstance.OwnsIn;
      NoRequests(conn.log, [], 0, 0);
      ghost var all, ms := trends, MadeOf(trends);
      assert ms[0..] == ms && all[0..] == all;
      for i := 0 to |trends|
        invariant conn.lostReads == old(conn.lostReads) && conn.failures == old(conn.failures)
        invariant trends == all && conn.Valid()
        invariant Layered(all[i..], conn, conn.table, base) && MadeOf(all[i..]) == ms[i..]
        invariant conn.log + TakeDownAll(ms[i..]) == old(conn.log) + TakeDownAll(ms)
      {
        ghost var log := conn.log;
        FirstLayer(all, i, conn, conn.table, base);
        FirstTakenDown(log, all, i);
        MadeRest(all[i..], 1);
        assert all[i..][1..] == all[i + 1..] && ms[i..][1..] == ms[i + 1..];
        trends[i].Stop();
      }
      assert all[|all|..] == [] && ms[|all|..] == [];
      NoRequests(conn.log, [], 0, 0);
      NoLayers(conn, conn.table, base);
      trends := [];
    }

    // Reading all running instances while further ones are set up; the samples are dropped. The first read
    // that is lost ends it, after `read` others.
    method DrainAll() returns (ok: bool, ghost read: nat)
      requires conn != null && conn.Valid() && Layered(trends, conn, conn.table, base)
      modifies conn
      ensures conn.Valid() && conn.table == old(conn.table)
      ensures Layered(trends, conn, conn.table, base)
      ensures read <= |trends| && (ok <==> read == |trends|) && (ok <==> conn.NoneLost(old(conn.clock), |trends|))
      ensures conn.NoneLost(old(conn.clock), read) && (!ok ==> conn.verdicts(old(conn.clock) + read).Drop?)
      ensures conn.log == old(conn.log) + ReadAll(MadeOf(trends))[..if ok then read else read + 1]
      ensures conn.clock == old(conn.clock) + if ok then read else read + 1
      ensures conn.failures >= old(conn.failures) + (if ok then 0 else 1)
      ensures conn.lostReads == old(conn.lostReads) + (if ok then 0 else 1)
    {
      hide ReadAll, Link.Traced, MadeOf, Layered, TrendInstance.OwnsIn;
      ghost var ms := MadeOf(trends);
      NoRequests(conn.log, ms, 0, 0);
      for i := 0 to |trends|
        invariant conn.lostReads == old(conn.lostReads)
        invariant conn.failures >= old(conn.failures)
        invariant conn.Valid() && conn.table == old(conn.table)
        invariant Layered(trends, conn, conn.table, base)
        invariant conn.log == old(conn.log) + ReadAll(ms)[..i]
        invariant conn.clock == old(conn.clock) + i && conn.NoneLost(old(conn.clock), i)
      {
        LayeredIsRunning(trends, conn, conn.table, base, i);
        ReadNext(old(conn.log), ms, i);
        MadeAt(trends, i);
        var r := trends[i].ReadSamples();
        if r.Err? {
          return false, i;
        }
      }
      ok, read := true, |trends|;
    }

    // When a new instance does not start, everything is taken down, and that instance first.
    method GiveUp(trend: TrendInstance)
      requires conn != null && conn.Valid() && trend.link == conn && trend !in trends && trend.OwnsIn(conn.table)
      requires Layered(trends, conn, conn.table - {trend.instanceId}, base)
      modifies this`trends, this`conn, conn, trend, trends
      ensures trends == [] && conn == null && old(conn).Valid() && old(conn).table == base
      ensures old(conn).failures == old(conn.failures) && old(conn).lostReads == old(conn.lostReads)
    {
      hide TakeDown, Layered, Bindings, DistinctNumbers, Link.Traced;
      trend.Stop();
      ClearTrends();
      conn := null;
    }

    // One round of the start loop: a new instance for one chunk, or everything taken down. `rest` are the
    // tags still to come.
    method AddTrend(chunk: Tags, sampleRateUs: uint32, connectionSize: uint32, ghost chunks: seq<Tags>,
                    ghost rest: Tags)
      returns (ok: bool)
      requires conn != null && conn.Valid() && Layered(trends, conn, conn.table, base) && chunk != []
      requires Named(trends, chunks) && AllSetUp(trends, conn.table, sampleRateUs, BufferSize(connectionSize))
      modifies this`trends, this`conn, this`pollIntervalMs, conn, trends
      ensures old(conn).Valid()
      ensures ok ==>
        && conn == old(conn) && Layered(trends, conn, conn.table, base)
        && |trends| == |old(trends)| + 1 && trends[..|trends| - 1] == old(trends) && fresh(trends[|trends| - 1])
        && Named(trends, chunks + [chunk]) && AllSetUp(trends, conn.table, sampleRateUs, BufferSize(connectionSize))
      ensures ok ==>
        var m := Made(ToU16(trends[|trends| - 1].instanceId), trends[|trends| - 1].tags);
        && MadeOf(trends) == old(MadeOf(trends)) + [m]
        && conn.log == old(conn.log) + BuildUp(m.id, m.tags, sampleRateUs, BufferSize(connectionSize))
      ensures !ok ==> trends == [] && conn == null && old(conn).table == base
      ensures old(conn).failures >= old(conn.failures)
      ensures !ok ==> old(conn).failures > old(conn.failures) || !AllNameable(chunk)
      ensures old(Welcome(conn, conn.table, chunk + rest) && AllNumbered(trends)) ==>
        ok && AllNumbered(trends) && Welcome(old(conn), old(conn).table, rest)
      ensures old(conn).lostReads == old(conn.lostReads)
    {
      hide BuildUp, TakeDown, Bindings, DistinctNumbers, AllBound, NoneBound, Layered, Named, AllSetUp, SetUp;
      hide Link.Traced;
      hide AllNumbered, NumberedUpTo, AllNameable, Welcome, Link.Orderly, BufferParams, BufferSize, MadeOf;
      hide TrendInstance.OwnsIn, TrendInstance.Names, TrendInstance.Fresh, DataStream.Plot, Min;
      var (bufferSize, pollMs) := BufferParams(sampleRateUs, RECORD_SIZE, |chunk|, connectionSize);
      SameBuffer(sampleRateUs, |chunk|, connectionSize);
      pollIntervalMs := Min(pollIntervalMs, pollMs);
      ghost var table, welcome := conn.table, Welcome(conn, conn.table, chunk + rest);
      if welcome { FirstWelcome(conn, table, chunk, rest); }
      var trend, started := NewInstance(conn, chunk, sampleRateUs, bufferSize);
      if !started {
        GiveUp(trend);
        return false;
      }
      Push(trends, trend, conn, conn.table, base, chunks, sampleRateUs, bufferSize);
      if welcome { RestWelcome(conn, table, conn.table, trend.instanceId, chunk, rest); }
      trends := trends + [trend];
      ok := true;
    }

    method MaxTagsInAny() returns (m: nat)
      ensures m == MaxCount(trends)
    {
      m := 0;
      for i := 0 to |trends|
        invariant Max(m, MaxCount(trends[i..])) == MaxCount(trends)
      {
        assert trends[i..][1..] == trends[i + 1..];
        m := Max(m, |trends[i].tags|);
      }
    }

    // The loop over the chunks.
    method StartAll(connectionSize: uint32, sampleRateUs: uint32, selected: Tags) returns (o: StartOutcome)
      requires conn != null && conn.Valid() && trends == [] && base == conn.table && selected != []
      modifies this`trends, this`conn, this`pollIntervalMs, conn
      ensures old(conn).Valid() && (o.Streaming? || o.GaveUp? || o.Escaped?)
      ensures o.GaveUp? ==> trends == [] && conn == null && old(conn).table == base
      ensures forall k | 0 <= k < |trends| :: fresh(trends[k])
      ensures !o.GaveUp? ==> conn == old(conn) && trends != [] && Layered(trends, conn, conn.table, base)
      ensures o.Streaming? ==>
        && Named(trends, BalancedChunks(selected, sampleRateUs, connectionSize))
        && AllSetUp(trends, conn.table, sampleRateUs, BufferSize(connectionSize))
      ensures !o.Streaming? ==> old(conn).failures > old(conn.failures) || !AllNameable(selected)
      ensures o.Escaped? ==> |trends| < |selected|
      ensures o.Streaming? ==>
        conn.log == old(conn.log) + SetUpAll(MadeOf(trends), sampleRateUs, BufferSize(connectionSize))
      ensures o.Escaped? ==> EscapedReading(old(conn.log), sampleRateUs, BufferSize(connectionSize))
      ensures old(Welcome(conn, conn.table, selected)) ==> !o.GaveUp? && (o.Streaming? ==> AllNumbered(trends))
      ensures old(conn).lostReads == old(conn.lostReads) + (if o.Escaped? then 1 else 0)
    {
      hide Layered, Named, AllSetUp, Chunks, TagsPerInstance, NumInstances, BufferParams, Flatten, AllNameable;
      hide Link.Traced, SetUpAll, ReadAll, BuildUp, BufferSize, MadeOf;
      hide Welcome, AllNumbered, MaxTagsPerInstance, TrendInstance.Names, TrendInstance.OwnsIn, Link.NoneLost, ToU16;
      hide Min, SetUpToRead;
      var maxTags := MaxTagsPerInstance(sampleRateUs, connectionSize, MIN_FILL_MS);
      var totalTags := |selected|;
      var numInstances := NumInstances(totalTags, maxTags);
      var tagsPerInst := TagsPerInstance(totalTags, maxTags);
      ChunkCount(selected, maxTags);
      ghost var chunks, link := Chunks(selected, tagsPerInst), conn;
      ghost var welcome := Welcome(conn, conn.table, selected);
      NothingYet(conn, base, sampleRateUs, BufferSize(connectionSize));
      NoRequests(conn.log, [], sampleRateUs, BufferSize(connectionSize));
      var tagOffset: nat := 0;
      assert selected[0..] == selected && chunks[0..] == chunks && chunks[..0] == [];
      for inst := 0 to numInstances
        invariant conn != null && conn.lostReads == old(conn.lostReads)
        invariant conn != null && conn.failures >= old(conn.failures)
        invariant conn == link && conn != null && conn.Valid()
        invariant inst <= tagOffset
        invariant |trends| == inst && forall k | 0 <= k < inst :: fresh(trends[k])
        invariant Layered(trends, conn, conn.table, base)
        invariant tagOffset <= totalTags && Chunks(selected[tagOffset..], tagsPerInst) == chunks[inst..]
        invariant welcome ==> AllNumbered(trends) && Welcome(link, link.table, selected[tagOffset..])
        invariant Named(trends, chunks[..inst])
        invariant conn.log == old(conn.log) + SetUpAll(MadeOf(trends), sampleRateUs, BufferSize(connectionSize))
        invariant AllSetUp(trends, conn.table, sampleRateUs, BufferSize(connectionSize))
      {
        NextChunk(selected, tagOffset, tagsPerInst, chunks, inst);
        ghost var ms := MadeOf(trends);
        var ok;
        ghost var read;
        ok, read := DrainAll();
        if !ok {
          CutShort(old(conn.log), ms, sampleRateUs, BufferSize(connectionSize), read);
          return Escaped;
        }
        assert ReadAll(ms)[..|ms|] == ReadAll(ms);
        var chunkSize := Min(tagsPerInst, totalTags - tagOffset);
        var chunk := selected[tagOffset..tagOffset + chunkSize];
        tagOffset := tagOffset + chunkSize;
        ok := AddTrend(chunk, sampleRateUs, connectionSize, chunks[..inst], selected[tagOffset..]);
        if !ok {
          return GaveUp;
        }
        SetUpNext(old(conn.log), ms, Made(ToU16(trends[inst].instanceId), trends[inst].tags),
                  sampleRateUs, BufferSize(connectionSize));
      }
      assert chunks[..numInstances] == chunks;
      o := Streaming;
    }

    // The sleep, recomputed for the reads of all instances.
    method SetPollInterval(connectionSize: uint32, sampleRateUs: uint32, ghost selected: Tags)
      requires selected != [] && Named(trends, BalancedChunks(selected, sampleRateUs, connectionSize))
      modifies this`pollIntervalMs
      ensures pollIntervalMs == Sleep(selected, sampleRateUs, connectionSize)
    {
      hide BalancedChunks, PerInstance, FillTime, PollInterval, Sleep, Named, MaxCount;
      TightestInstance(trends, selected, sampleRateUs, connectionSize);
      var maxTagsInAny := MaxTagsInAny();
      pollIntervalMs := PollInterval(FillTime(sampleRateUs, connectionSize, maxTagsInAny), |trends|);
    }

    // With all instances up, the polling thread starts.
    method StartPolling(connectionSize: uint32, sampleRateUs: uint32, ghost selected: Tags)
      requires conn != null && conn.Valid() && trends != [] && Layered(trends, conn, conn.table, base)
      requires selected != [] && Named(trends, BalancedChunks(selected, sampleRateUs, connectionSize))
      requires numeric == map[] && trendTime == map[] && seen == []
      modifies this`pollIntervalMs, this`running, this`joinable
      ensures Valid() && running && joinable && pollIntervalMs == Sleep(selected, sampleRateUs, connectionSize)
    {
      hide Layered, Named, BalancedChunks, Sleep, Link.Traced;
      SetPollInterval(connectionSize, sampleRateUs, selected);
      running, joinable := true, true;
      NothingSeen();
    }

    // Start a session: `connects` tells whether the connection comes up, and `connectionSize` what was
    // negotiated. Either everything runs, or nothing is left on the PLC, unless reading an instance
    // already running throws: that exception is not caught.
    method Start(link: Link, connects: bool, connectionSize: uint32, sampleRateUs: uint32, selected: Tags)
      returns (o: StartOutcome)
      requires Valid() && link.Valid() && selected != []
      requires !running ==> trends == []
      modifies this, link
      ensures Valid()
      ensures o.AlreadyRunning? <==> old(running)
      ensures o.AlreadyRunning? ==> unchanged(this) && unchanged(link)
      ensures !old(running) ==> forall k | 0 <= k < |trends| :: fresh(trends[k])
      ensures !old(running) && connects && !o.Streaming? ==>
        link.failures > old(link.failures) || !AllNameable(selected)
      ensures !old(running) ==> link.Valid() && (o.Streaming? <==> running) && (!connects <==> o.NoConnection?)
      ensures !old(running) ==> joinable == running
      ensures link.lostReads == old(link.lostReads) + (if o.Escaped? then 1 else 0)
      ensures o.NoConnection? || o.GaveUp? ==>
        trends == [] && link.table == old(link.table) && (conn == null || conn == old(conn))
      ensures o.Escaped? ==>
        conn == link && base == old(link.table) && 0 < |trends| < |selected| && link.table != old(link.table)
      ensures old(!running && connects && Welcome(link, link.table, selected)) ==>
        if o.Streaming? then AllNumbered(trends) else o.Escaped?
      ensures o.Streaming? ==> conn == link && base == old(link.table) && seen == []
      ensures o.Streaming? ==>
        link.log == old(link.log) + SetUpAll(MadeOf(trends), sampleRateUs, BufferSize(connectionSize))
      ensures o.Escaped? ==> EscapedReading(old(link.log), sampleRateUs, BufferSize(connectionSize))
      ensures !old(running) ==> numeric == map[]
      ensures o.Streaming? ==>
        && Named(trends, BalancedChunks(selected, sampleRateUs, connectionSize))
        && AllSetUp(trends, link.table, sampleRateUs, BufferSize(connectionSize))
        && pollIntervalMs == Sleep(selected, sampleRateUs, connectionSize)
    {
      hide Layered, Named, AllSetUp, Chunks, BalancedChunks, PerInstance, BufferSize, MaxCount, Link.Traced;
      hide FillTime, PollInterval, Sleep, MaxEntries, IngestAll, AllNameable, Welcome, AllNumbered;
      hide SetUpAll, ReadAll, MadeOf;
      if running {
        return AlreadyRunning;
      }
      numeric := map[];
      if !connects {
        return NoConnection;
      }
      conn := link;
      trends, trendTime := [], map[];
      base, seen := link.table, [];
      pollIntervalMs := 200;
      o := StartAll(connectionSize, sampleRateUs, selected);
      if o.Escaped? {
        LayersShow(trends, link, link.table, base);
      }
      if o.Streaming? {
        StartPolling(connectionSize, sampleRateUs, selected);
      }
    }

    // ---- polling ----

    // One sample: anchor its tag's clock, unwrap the counter, and keep it only if it is later than what
    // the series already has.
    method TakeSample(name: bytes, timestamp: uint32, value: Value, hostNow: real) returns (accepted: bool)
      modifies this`trendTime, this`numeric
      ensures Plot() == Ingest(old(Plot()), Sample(name, Obs(timestamp, value, hostNow)))
      ensures accepted <==> SeriesOf(Plot(), name) != SeriesOf(old(Plot()), name)
    {
      var series := if name in numeric then numeric[name] else [];
      var ts := if name in trendTime then trendTime[name] else FRESH;
      if !ts.initialized {
        ts := ts.(basePlcTs := timestamp, baseHost := hostNow, initialized := true);
      }
      var delta: uint32;
      if timestamp >= ts.basePlcTs {
        delta := timestamp - ts.basePlcTs;
      } else {
        delta := (0xFFFF_FFFF - ts.basePlcTs) as int + timestamp + 1;
      }
      var time := ts.baseHost + (delta as real) * TICK;
      accepted := time > ts.last;
      if accepted {
        series := series + [Point(time, value)];
        ts := ts.(last := time);
      } else {
        assert series + [] == series;
      }
      numeric, trendTime := numeric[name := series], trendTime[name := ts];
    }

    // All samples of one read. Each is either accepted or skipped.
    method TakeSamples(trend: TrendInstance, samples: seq<TrendSample>, hostNow: real)
      returns (accepted: nat, skipped: nat)
      requires PlotIsSeen() && hostNow >= 0.0
      requires forall k | 0 <= k < |samples| :: samples[k].tagIndex < |trend.tags|
      modifies this`trendTime, this`numeric, this`seen
      ensures PlotIsSeen() && seen == old(seen) + Tagged(trend.Names(), samples, hostNow)
      ensures Plot() == IngestAll(old(Plot()), Tagged(trend.Names(), samples, hostNow))
      ensures accepted + skipped == |samples| == |seen| - |old(seen)|
    {
      hide Ingest, IngestAll, Tagged;
      accepted, skipped := 0, 0;
      ghost var names := trend.Names();
      NothingTagged(names, hostNow);
      assert samples[..0] == [] && seen + [] == seen;
      for i := 0 to |samples|
        invariant PlotIsSeen() && seen == old(seen) + Tagged(names, samples[..i], hostNow)
        invariant accepted + skipped == i == |seen| - |old(seen)|
      {
        var sample := samples[i];
        var tag := trend.tags[sample.tagIndex];
        ghost var s := Sample(tag.name, Obs(sample.timestamp, sample.value, hostNow));
        var ok := TakeSample(tag.name, sample.timestamp, sample.value, hostNow);
        if ok { accepted := accepted + 1; } else { skipped := skipped + 1; }
        IngestNext(seen, s);
        TaggedNext(names, samples, i, hostNow);
        Regroup(old(seen), Tagged(names, samples[..i], hostNow), [s]);
        seen := seen + [s];
      }
      assert samples[..|samples|] == samples;
      IngestAppend(EMPTY, old(seen), Tagged(names, samples, hostNow));
    }

    // Reading one instance; ok is false when that throws.
    method PollOne(idx: nat, hostNow: real) returns (ok: bool, gotData: bool)
      requires conn != null && conn.Valid() && Layered(trends, conn, conn.table, base)
      requires idx < |trends| && PlotIsSeen() && hostNow >= 0.0
      modifies this`trendTime, this`numeric, this`seen, conn
      ensures conn.Valid() && conn.table == old(conn.table) && conn.clock == old(conn.clock) + 1
      ensures conn.log == old(conn.log) + [TrendMessages.ReadData(MadeOf(trends)[idx].id)]
      ensures PlotIsSeen()
      ensures seen == old(seen) + Reading(trends[idx].Names(), conn.verdicts(old(conn.clock)), hostNow)
      ensures ok <==> !conn.verdicts(old(conn.clock)).Drop?
      ensures gotData <==> |seen| > |old(seen)|
      ensures conn.lostReads == old(conn.lostReads) + (if ok then 0 else 1)
    {
      hide IngestAll, SamplesFrom, Tagged, PlotIsSeen, Link.Traced, MadeOf, Layered, TrendInstance.OwnsIn;
      LayeredIsRunning(trends, conn, conn.table, base, idx);
      MadeAt(trends, idx);
      gotData := false;
      var r := trends[idx].ReadSamples();
      NothingTagged(trends[idx].Names(), hostNow);
      assert trends[idx].Types() == TypesOf(trends[idx].Names());
      assert seen + [] == seen;
      if r.Err? {
        return false, false;
      }
      if r.value != [] {
        var accepted, skipped := TakeSamples(trends[idx], r.value, hostNow);
        gotData := true;
      }
      ok := true;
    }

    // One pass over the instances. The first read that throws ends the streaming; `read` instances were
    // read before that. Nothing changes on the PLC.
    method PollCycle(hostNow: real, ghost chunks: seq<Tags>) returns (gotData: bool, ghost read: nat)
      requires Valid() && running && hostNow >= 0.0 && Named(trends, chunks)
      modifies this`running, this`trendTime, this`numeric, this`seen, conn
      ensures Valid() && PlotIsSeen() && conn.table == old(conn.table)
      ensures read <= |trends| && (running <==> read == |trends|)
      ensures conn.NoneLost(old(conn.clock), read)
      ensures !running ==> conn.verdicts(old(conn.clock) + read).Drop?
      ensures conn.clock == old(conn.clock) + (if running then |trends| else read + 1)
      ensures conn.log == old(conn.log) + ReadAll(MadeOf(trends))[..if running then read else read + 1]
      ensures seen == old(seen) + Arrived(chunks[..read], conn.verdicts, old(conn.clock), hostNow)
      ensures gotData <==> |seen| > |old(seen)|
      ensures conn.lostReads == old(conn.lostReads) + (if running then 0 else 1)
    {
      hide PlotIsSeen, Layered, Reading, Arrived, Named, ReadAll, Link.Traced, MadeOf;
      ghost var ms := MadeOf(trends);
      NoRequests(conn.log, ms, 0, 0);
      gotData := false;
      assert chunks[..0] == [] && seen + [] == seen && |chunks| == |trends| by { NamedLength(trends, chunks); }
      NothingArrives(conn.verdicts, conn.clock, hostNow);
      for idx := 0 to |trends|
        invariant conn.lostReads == old(conn.lostReads)
        invariant conn.Valid() && conn.table == old(conn.table) && running
        invariant Layered(trends, conn, conn.table, base) && PlotIsSeen()
        invariant conn.clock == old(conn.clock) + idx && conn.NoneLost(old(conn.clock), idx)
        invariant seen == old(seen) + Arrived(chunks[..idx], conn.verdicts, old(conn.clock), hostNow)
        invariant gotData <==> |seen| > |old(seen)|
        invariant conn.log == old(conn.log) + ReadAll(ms)[..idx]
      {
        ReadNext(old(conn.log), ms, idx);
        assert trends[idx].Names() == chunks[idx] by { NamedLength(trends, chunks); }
        ArrivedNext(chunks, idx, conn.verdicts, old(conn.clock), hostNow);
        Regroup(old(seen), Arrived(chunks[..idx], conn.verdicts, old(conn.clock), hostNow),
                Reading(chunks[idx], conn.verdicts(conn.clock), hostNow));
        NothingRead(chunks[idx], hostNow);
        assert seen + [] == seen;
        var ok, got := PollOne(idx, hostNow);
        if !ok {
          running, read := false, idx;
          return;
        }
        gotData := gotData || got;
      }
      read := |trends|;
      assert chunks[..|trends|] == chunks;
    }

    // The polling thread: one cycle after the other, until the streaming ends or one throws.
    method PollingLoop(hosts: seq<real>, ghost chunks: seq<Tags>)
      requires Valid() && running && Named(trends, chunks) && forall k | 0 <= k < |hosts| :: hosts[k] >= 0.0
      modifies this`running, this`trendTime, this`numeric, this`seen, conn
      ensures Valid() && conn.table == old(conn.table)
      ensures conn.lostReads == old(conn.lostReads) + (if running then 0 else 1)
      ensures running ==> conn.log == old(conn.log) + ReadCycles(MadeOf(trends), |hosts|)
    {
      hide Named, Layered, PlotIsSeen, Arrived, ReadAll, ReadCycles, Link.Traced, MadeOf;
      ghost var made := MadeOf(trends);
      NoRequests(conn.log, made, 0, 0);
      var i := 0;
      while running && i < |hosts|
        invariant i <= |hosts| && Valid() && conn.table == old(conn.table) && MadeOf(trends) == made
        invariant conn.lostReads == old(conn.lostReads) + (if running then 0 else 1)
        invariant running ==> conn.log == old(conn.log) + ReadCycles(made, i)
      {
        ReadCycleNext(old(conn.log), made, i);
        var _, _ := PollCycle(hosts[i], chunks);
        assert ReadAll(made)[..|made|] == ReadAll(made);
        i := i + 1;
      }
    }

    // ---- the end of a session ----

    // After a poll that threw this returns at once: the instances stay on the PLC, and the polling thread,
    // which has ended, is not joined.
    method Shutdown()
      requires Valid()
      modifies this`running, this`joinable, this`trends, this`conn, conn, trends
      ensures Valid() && !running && joinable == old(joinable && !running)
      ensures !old(running) ==> trends == old(trends) && conn == old(conn)
      ensures !old(running) ==> old(conn) != null ==> unchanged(old(conn))
      ensures old(running) ==> trends == [] && conn == null && old(conn).Valid() && old(conn).table == base
      ensures old(running) ==> old(conn).lostReads == old(conn.lostReads)
      ensures old(running) ==> old(conn).log == old(conn.log) + TakeDownAll(old(MadeOf(trends)))
    {
      hide Layered, PlotIsSeen, Link.Traced;
      if !running {
        return;
      }
      running, joinable := false, false;
      ClearTrends();
      conn := null;
    }

    // The destructor shuts down, and then the members go: first the instances, so that what was left on
    // the PLC is removed now, then the connection, and then the polling thread. Destroying a thread that
    // was not joined terminates the process.
    method Destroy() returns (terminated: bool)
      requires Valid()
      modifies this`running, this`joinable, this`trends, this`conn, conn, trends
      ensures trends == [] && !running
      ensures terminated <==> old(joinable && !running)
      ensures old(conn) != null && old(running || trends != []) ==> old(conn).Valid() && old(conn).table == base
      ensures old(conn) != null && !old(running || trends != []) ==> unchanged(old(conn))
    {
      hide Layered, PlotIsSeen, Link.Traced;
      Shutdown();
      if conn != null && trends != [] {
        ClearTrends();
      }
      terminated := joinable;
    }

    // ---- what holds of every session ----

    // Every series is strictly increasing in time and no longer than one turn of the counter.
    lemma SeriesIncrease(tag: bytes)
      requires PlotIsSeen()
      ensures Increasing(SeriesOf(Plot(), tag)) && |SeriesOf(Plot(), tag)| <= WRAP
    {
      TagsAreIndependent(seen, tag);
      HostsProjected(seen, tag);
      SeriesIncreases(Project(seen, tag));
    }
  }

  lemma {:induction false} HostsProjected(ss: seq<Sample>, tag: bytes)
    requires forall k | 0 <= k < |ss| :: ss[k].obs.host >= 0.0
    ensures forall k | 0 <= k < |Project(ss, tag)| :: Project(ss, tag)[k].host >= 0.0
  {
    if ss != [] { HostsProjected(ss[..|ss| - 1], tag); }
  }

  // Start, polling and shutdown leave the PLC as it was if and only if none of the read requests on the
  // way is lost: those are the exceptions nobody cleans up after.
  method Session(link: Link, connects: bool, connectionSize: uint32, sampleRateUs: uint32, selected: Tags,
                 hosts: seq<real>)
    returns (stream: DataStream, o: StartOutcome, ghost made: seq<Made>)
    requires link.Valid() && selected != [] && forall k | 0 <= k < |hosts| :: hosts[k] >= 0.0
    modifies link
    ensures fresh(stream) && stream.Valid() && link.Valid() && !stream.running
    ensures forall k | 0 <= k < |stream.trends| :: fresh(stream.trends[k])
    ensures link.table == old(link.table) <==> link.lostReads == old(link.lostReads)
    ensures !connects ==> link.table == old(link.table)
    ensures link.table != old(link.table) ==> stream.conn == link && stream.base == old(link.table)
    ensures link.table != old(link.table) <==> stream.trends != []
    ensures connects ==> !o.NoConnection?
    ensures o.Streaming? && link.lostReads == old(link.lostReads) ==>
      link.log == old(link.log) + SetUpAll(made, sampleRateUs, BufferSize(connectionSize))
                  + ReadCycles(made, |hosts|) + TakeDownAll(made)
  {
    hide Layered, Named, AllSetUp, BalancedChunks, PollInterval, FillTime, BufferSize, Arrived, Link.Traced;
    hide SetUpAll, ReadAll, ReadCycles, TakeDownAll, MadeOf;
    stream := new DataStream();
    o := stream.Start(link, connects, connectionSize, sampleRateUs, selected);
    made := MadeOf(stream.trends);
    if o.Streaming? {
      stream.PollingLoop(hosts, BalancedChunks(selected, sampleRateUs, connectionSize));
    }
    if stream.trends != [] && !stream.running {
      LayersShow(stream.trends, link, link.table, stream.base);
    }
    stream.Shutdown();
  }

  lemma NamedLength(ts: seq<TrendInstance>, chunks: seq<Tags>)
    requires Named(ts, chunks)
    ensures |ts| == |chunks| && forall k | 0 <= k < |ts| :: ts[k].Names() == chunks[k]
  {
  }

  lemma NothingArrives(verdicts: nat -> Verdict, clock: nat, host: real)
    ensures Arrived([], verdicts, clock, host) == []
  {
  }

  // Such a session exists: the PLC carries out everything the start asks of it, and then the connection
  // is gone. The first read ends the streaming, and a trend stays on the PLC.
  method LeftBehind() returns (link: Link, stream: DataStream, o: StartOutcome)
    ensures o.Streaming? && !stream.running && stream.joinable && link.lostReads == 1
    ensures stream.base == map[] && link.table != map[]
  {
    hide Layered, Named, AllSetUp, BalancedChunks, Sleep, BufferSize, Arrived, AllNameable, CarriesOut, Link.Traced;
    hide SetUpAll, ReadAll, TakeDownAll, MadeOf;
    link := new Link(map[], _ => Drop, Willing);
    IsOrderly(link);
    stream := new DataStream();
    var selected: Tags := [([65], 0xC4)];
    PlainNameIsNameable(selected);
    o := stream.Start(link, true, 4002, 10000, selected);
    LayersShow(stream.trends, link, link.table, stream.base);
    assert link.verdicts(link.clock).Drop?;
    var _, _ := stream.PollCycle(0.0, BalancedChunks(selected, 10000, 4002));
    stream.Shutdown();
  }

  lemma IsOrderly(link: Link)
    requires link.setup == Willing
    ensures link.Orderly()
  {
    forall clock: nat, table: Table, r: Request ensures CarriesOut(link.setup(clock, table, r), table, r) {
      WillingCarriesOut(clock, table, r);
    }
  }

  lemma PlainNameIsNameable(names: Tags)
    requires |names| == 1 && names[0].0 == [65]
    ensures AllNameable(names)
  {
    var c := CipPath.Component([65], None);
    assert [c][0] == c && [c][1..] == [];
    assert CipPath.PrintPath([c]) == [65];
    CipPath.SegmentsOfPrinted([c]);
  }

  lemma NothingRead(names: Tags, host: real)
    ensures Reading(names, Drop, host) == []
  {
  }

  lemma NothingTagged(names: Tags, host: real)
    ensures Tagged(names, [], host) == []
  {
  }

  lemma IngestNext(ss: seq<Sample>, s: Sample)
    ensures IngestAll(EMPTY, ss + [s]) == Ingest(IngestAll(EMPTY, ss), s)
  {
  }

  lemma TaggedNext(names: Tags, samples: seq<TrendSample>, i: nat, host: real)
    requires i < |samples| && samples[i].tagIndex < |names|
    ensures Tagged(names, samples[..i + 1], host)
         == Tagged(names, samples[..i], host)
            + [Sample(names[samples[i].tagIndex].0, Obs(samples[i].timestamp, samples[i].value, host))]
  {
    assert samples[..i + 1][..i] == samples[..i];
  }

  lemma NothingSeen()
    ensures IngestAll(EMPTY, []) == EMPTY
  {
  }
}
