// What the streamer's parts amount to together: its sizes against the polling schedule, and its samples
// against the records on the wire.
module StreamGuarantees {
  import opened Bytes
  import opened Sizing
  import opened TimeSeries
  import opened TrendMessages
  import opened TrendInstances
  import opened TrendPlc
  import opened DataStreams
  import PollSchedule

  // ---- no overflow ----

  function Counts(chunks: seq<Tags>): (counts: seq<nat>)
    ensures |counts| == |chunks| && forall i | 0 <= i < |chunks| :: counts[i] == |chunks[i]|
  {
    seq(|chunks|, i requires 0 <= i < |chunks| => |chunks[i]|)
  }

  // The polling schedule a start sets up.
  function Schedule(selected: Tags, rateUs: nat, connectionSize: nat, phase: seq<nat>): PollSchedule.Setup
    requires selected != []
  {
    PollSchedule.Setup(rateUs, MaxEntries(connectionSize), Counts(BalancedChunks(selected, rateUs, connectionSize)),
                       1000 * Sleep(selected, rateUs, connectionSize), phase)
  }

  lemma ScheduleIsConfigured(selected: Tags, rateUs: nat, connectionSize: nat, phase: seq<nat>)
    requires selected != [] && rateUs > 0 && |phase| == |BalancedChunks(selected, rateUs, connectionSize)|
    requires forall i | 0 <= i < |phase| :: phase[i] < rateUs
    ensures PollSchedule.Configured(Schedule(selected, rateUs, connectionSize, phase), connectionSize,
                                    PerInstance(|selected|, rateUs, connectionSize))
  {
    hide BalancedChunks, PerInstance, FillTime, PollInterval, MaxEntries;
    BalancedShape(selected, rateUs, connectionSize);
    assert Schedule(selected, rateUs, connectionSize, phase).tags[0] == PerInstance(|selected|, rateUs, connectionSize);
  }

  // No run loses a record, whatever the sampling phases, as long as every read takes at most 7 ms and
  // is served within the first `delay` of them.
  ghost predicate NeverOverflows(selected: Tags, rateUs: nat, connectionSize: nat, delay: nat)
    requires selected != []
  {
    var phase := seq(|BalancedChunks(selected, rateUs, connectionSize)|, _ => 0);
    PollSchedule.NeverLoses(Schedule(selected, rateUs, connectionSize, phase), delay)
  }

  function FillOf(selected: Tags, rateUs: nat, connectionSize: nat): nat
    requires selected != []
  {
    FillTime(rateUs, connectionSize, PerInstance(|selected|, rateUs, connectionSize))
  }

  // What a start sets up loses no record in any run with reads of at most 7 ms, exactly when the fill
  // time covers 7 ms per instance and 13 ms more. If the PLC drained the buffer at the very start of
  // every read, 5 ms more would do.
  lemma SafeExactlyWhen(selected: Tags, rateUs: nat, connectionSize: nat)
    requires selected != [] && rateUs > 0
    ensures var cycle := |BalancedChunks(selected, rateUs, connectionSize)| * READ_TIME_US;
            && (NeverOverflows(selected, rateUs, connectionSize, READ_TIME_US)
                <==> cycle + 13000 <= FillOf(selected, rateUs, connectionSize))
            && (NeverOverflows(selected, rateUs, connectionSize, 0)
                <==> cycle + 5000 <= FillOf(selected, rateUs, connectionSize))
  {
    hide BalancedChunks, PerInstance, FillTime, PollInterval, MaxEntries, Sleep;
    hide PollSchedule.NeverLoses, PollSchedule.LongestGap, PollSchedule.Configured;
    var per := PerInstance(|selected|, rateUs, connectionSize);
    var phase: seq<nat> := seq(|BalancedChunks(selected, rateUs, connectionSize)|, _ => 0);
    ScheduleIsConfigured(selected, rateUs, connectionSize, phase);
    var c := Schedule(selected, rateUs, connectionSize, phase);
    PollSchedule.GapFits(c, connectionSize, per);
    PollSchedule.SafeExactlyWhen(c, connectionSize, per, 0);
    PollSchedule.SafeExactlyWhen(c, connectionSize, per, READ_TIME_US);
  }

  // The sizing aims at 40 ms of fill time and guarantees 32. That is enough for two instances.
  lemma TwoInstancesAreSafe(selected: Tags, rateUs: nat, connectionSize: nat)
    requires selected != [] && rateUs > 0 && |BalancedChunks(selected, rateUs, connectionSize)| <= 2
    requires FillCap(rateUs, connectionSize, MIN_FILL_MS) >= 1 && PeriodCap(connectionSize) >= 1
    ensures NeverOverflows(selected, rateUs, connectionSize, READ_TIME_US)
  {
    hide BalancedChunks, FillCap, PeriodCap, MaxEntries, NeverOverflows;
    var per := PerInstance(|selected|, rateUs, connectionSize);
    BalancedSizes(|selected|, MaxTagsPerInstance(rateUs, connectionSize, MIN_FILL_MS));
    SizingBound(rateUs, connectionSize, MIN_FILL_MS, per);
    SafeExactlyWhen(selected, rateUs, connectionSize);
  }

  // The rates the dialog offers, whole milliseconds, leave a little more on the two connection sizes
  // there are: enough for three instances.
  lemma ThreeInstancesAreSafe(selected: Tags, ms: nat, connectionSize: nat)
    requires selected != [] && ms > 0 && (connectionSize == 4002 || connectionSize == 504)
    requires |BalancedChunks(selected, 1000 * ms, connectionSize)| <= 3
    ensures NeverOverflows(selected, 1000 * ms, connectionSize, READ_TIME_US)
  {
    hide BalancedChunks, NeverOverflows, FillTime;
    var maxTags := MaxTagsPerInstance(1000 * ms, connectionSize, MIN_FILL_MS);
    BalancedSizes(|selected|, maxTags);
    FillTimeAntitone(1000 * ms, connectionSize, PerInstance(|selected|, 1000 * ms, connectionSize), maxTags);
    WholeMilliseconds(ms, connectionSize);
    SafeExactlyWhen(selected, 1000 * ms, connectionSize);
  }

  lemma WholeMilliseconds(ms: nat, connectionSize: nat)
    requires ms > 0 && (connectionSize == 4002 || connectionSize == 504)
    ensures FillTime(1000 * ms, connectionSize, MaxTagsPerInstance(1000 * ms, connectionSize, MIN_FILL_MS)) >= 35000
  {
    hide FillCap;
    var e, n := MaxEntries(connectionSize), MaxTagsPerInstance(1000 * ms, connectionSize, MIN_FILL_MS);
    if ms >= 10 {
      DivAtLeast(e, n, 4);
      MulMono(4, e / n, 1000 * ms);
    } else {
      hide MaxTagsPerInstance, FillTime;
      LowRateMaxTags(ms, connectionSize);
      LowRateFill(ms, connectionSize);
    }
  }

  // Four can be too many, at the dialog's own default rate: 48 tags at 10 ms over the smaller connection
  // make four full instances, and some run loses records. At 1 ms it takes five full instances, of 45
  // tags, over a full-size connection, and over the smaller one, which takes one tag each, 6 tags. With
  // 54 tags at 1 ms over the full-size connection records are lost even when the PLC serves every read
  // at once.
  lemma FullInstancesOverflow(a: Tags, b: Tags, c: Tags, d: Tags)
    requires |a| == 48 && |b| == 45 && |c| == 6 && |d| == 54
    ensures |BalancedChunks(a, 10000, 504)| == 4 && !NeverOverflows(a, 10000, 504, READ_TIME_US)
    ensures |BalancedChunks(b, 1000, 4002)| == 5 && !NeverOverflows(b, 1000, 4002, READ_TIME_US)
    ensures |BalancedChunks(c, 1000, 504)| == 6 && !NeverOverflows(c, 1000, 504, READ_TIME_US)
    ensures |BalancedChunks(d, 1000, 4002)| == 6 && !NeverOverflows(d, 1000, 4002, 0)
  {
    hide NeverOverflows, BalancedChunks, PerInstance, MaxTagsPerInstance, FillTime;
    LowRateMaxTags(1, 4002);
    LowRateMaxTags(1, 504);
    HighRateMaxTags(10);
    TightFills();
    FullInstances(a, 10000, 504, 12, 4);
    FullInstances(b, 1000, 4002, 9, 5);
    FullInstances(c, 1000, 504, 1, 6);
    FullInstances(d, 1000, 4002, 9, 6);
  }

  lemma TightFills()
    ensures FillTime(10000, 504, 12) == 40000 && FillTime(1000, 4002, 9) == 44000 && FillTime(1000, 504, 1) == 48000
  {
  }

  // A selection that fills its instances to the last.
  lemma FullInstances(selected: Tags, rateUs: nat, connectionSize: nat, per: nat, num: nat)
    requires per > 0 && num > 0 && |selected| == num * per && rateUs > 0
    requires per == MaxTagsPerInstance(rateUs, connectionSize, MIN_FILL_MS)
    ensures |BalancedChunks(selected, rateUs, connectionSize)| == num
    ensures PerInstance(|selected|, rateUs, connectionSize) == per
    ensures var fill := FillTime(rateUs, connectionSize, per);
            && (NeverOverflows(selected, rateUs, connectionSize, READ_TIME_US) <==> num * READ_TIME_US + 13000 <= fill)
            && (NeverOverflows(selected, rateUs, connectionSize, 0) <==> num * READ_TIME_US + 5000 <= fill)
  {
    hide NeverOverflows, MaxTagsPerInstance, FillTime, Chunks, NumInstances, TagsPerInstance;
    BalancedPartition(selected, per);
    ExactSizes(num, per);
    SafeExactlyWhen(selected, rateUs, connectionSize);
  }

  lemma ExactSizes(num: nat, per: nat)
    requires num > 0 && per > 0
    ensures num * per > 0 && NumInstances(num * per, per) == num && TagsPerInstance(num * per, per) == per
  {
    hide CeilDiv;
    MulMono(1, num, per);
    ExactCeil(num, per);
    ExactCeil(per, num);
    assert num * per == per * num;
  }

  lemma ExactCeil(q: nat, b: nat)
    requires b > 0
    ensures CeilDiv(q * b, b) == q
  {
    DivAtLeast(q * b + b - 1, b, q);
    DivAtMost(q * b + b - 1, b, q);
  }

  // ---- exactly once, from the wire to the series ----

  // The observations of the records that carry one tag number.
  function ObsOf(rs: seq<Record>, number: int, dataType: uint16, host: real): seq<Obs> {
    if rs == [] then []
    else
      var r := rs[|rs| - 1];
      ObsOf(rs[..|rs| - 1], number, dataType, host)
      + (if r.number == number then [Obs(r.ts, Interpret(r.raw, dataType), host)] else [])
  }

  ghost predicate DistinctNames(names: Tags) { forall i, j | 0 <= i < j < |names| :: names[i].0 != names[j].0 }

  ghost predicate Names(names: Tags, tag: bytes) { exists i | 0 <= i < |names| :: names[i].0 == tag }

  lemma {:induction false} SamplesOfSnoc(rs: seq<Record>, types: seq<uint16>)
    requires rs != []
    ensures var n := |rs| - 1;
            SamplesOf(rs, types) == SamplesOf(rs[..n], types) + SampleOf(rs[n].number, rs[n].ts, rs[n].raw, types)
  {
    hide SampleOf;
    if |rs| > 1 {
      SamplesOfSnoc(rs[1..], types);
      assert rs[1..][..|rs| - 2] == rs[..|rs| - 1][1..];
    }
  }

  lemma {:induction false} TaggedSnoc(names: Tags, samples: seq<TrendSample>, s: TrendSample, host: real)
    requires s.tagIndex < |names|
    ensures Tagged(names, samples + [s], host)
         == Tagged(names, samples, host) + [Sample(names[s.tagIndex].0, Obs(s.timestamp, s.value, host))]
  {
  }

  lemma {:induction false} ProjectSnoc(ss: seq<Sample>, s: Sample, tag: bytes)
    ensures Project(ss + [s], tag) == Project(ss, tag) + (if s.tag == tag then [s.obs] else [])
  {
  }

  lemma {:induction false} ProjectAppend(a: seq<Sample>, b: seq<Sample>, tag: bytes)
    ensures Project(a + b, tag) == Project(a, tag) + Project(b, tag)
    decreases |b|
  {
    if b == [] {
      assert a + b == a;
    } else {
      var n := |b| - 1;
      ProjectAppend(a, b[..n], tag);
      assert a + b == (a + b[..n]) + [b[n]];
      ProjectSnoc(a + b[..n], b[n], tag);
    }
  }

  // What a read adds for tag i are the records with the number i + 1.
  lemma {:induction false} ProjectRecords(names: Tags, rs: seq<Record>, host: real, i: nat)
    requires i < |names| && DistinctNames(names)
    ensures Project(Tagged(names, SamplesOf(rs, TypesOf(names)), host), names[i].0)
         == ObsOf(rs, i + 1, names[i].1, host)
    decreases |rs|
  {
    hide Interpret, Tagged, Project;
    if rs == [] {
      NothingTagged(names, host);
      ProjectNothing(names[i].0);
    } else {
      var n, types := |rs| - 1, TypesOf(names);
      ProjectRecords(names, rs[..n], host, i);
      SamplesOfSnoc(rs, types);
      var before, here := SamplesOf(rs[..n], types), SampleOf(rs[n].number, rs[n].ts, rs[n].raw, types);
      if here == [] {
        assert before + here == before;
      } else {
        TaggedSnoc(names, before, here[0], host);
        ProjectSnoc(Tagged(names, before, host),
                    Sample(names[here[0].tagIndex].0, Obs(here[0].timestamp, here[0].value, host)), names[i].0);
      }
    }
  }

  // An instance without the tag adds nothing to it.
  lemma {:induction false} ProjectOthers(names: Tags, samples: seq<TrendSample>, host: real, tag: bytes)
    requires !Names(names, tag)
    ensures Project(Tagged(names, samples, host), tag) == []
    decreases |samples|
  {
    hide Project;
    if samples == [] {
      ProjectNothing(tag);
    } else {
      var n := |samples| - 1;
      ProjectOthers(names, samples[..n], host, tag);
      if samples[n].tagIndex < |names| {
        ProjectSnoc(Tagged(names, samples[..n], host),
                    Sample(names[samples[n].tagIndex].0, Obs(samples[n].timestamp, samples[n].value, host)), tag);
      } else {
        assert Tagged(names, samples, host) == Tagged(names, samples[..n], host);
      }
    }
  }

  lemma ProjectNothing(tag: bytes)
    ensures Project([], tag) == []
  {
  }

  // A read of the instance with these tags, to which the PLC gave these numbers, and the records it was
  // answered with.
  datatype Poll = Poll(names: Tags, numbers: seq<uint16>, records: seq<Record>, host: real)

  function Answered(p: Poll): seq<Sample> { Reading(p.names, Obey(0, EncodeRecords(p.records)), p.host) }

  function AllAnswered(polls: seq<Poll>): seq<Sample> {
    if polls == [] then [] else AllAnswered(polls[..|polls| - 1]) + Answered(polls[|polls| - 1])
  }

  // The records with the number of tag i deliver window w of the truth.
  ghost predicate Carries(p: Poll, i: nat, t: Truth, w: Window)
    requires i < |p.names| == |p.numbers| && |t.ticks| == |t.values| && w.from <= w.to <= |t.ticks|
  {
    && DistinctNames(p.names) && w.host == p.host
    && ObsOf(p.records, p.numbers[i] as int, p.names[i].1, p.host) == Delivered(t, w)
  }

  // The reads of the instance that holds the tag deliver the windows, one after the other; the reads of
  // other instances may come in between and carry anything.
  ghost predicate Match(polls: seq<Poll>, tag: bytes, t: Truth, ws: seq<Window>)
    requires InOrder(t, ws)
  {
    if polls == [] then ws == []
    else
      var p, earlier := polls[|polls| - 1], polls[..|polls| - 1];
      if Names(p.names, tag) then
        && ws != [] && |p.numbers| == |p.names|
        && (exists i | 0 <= i < |p.names| :: p.names[i].0 == tag && Carries(p, i, t, ws[|ws| - 1]))
        && Match(earlier, tag, t, ws[..|ws| - 1])
      else Match(earlier, tag, t, ws)
  }

  // The PLC's numbers are such that its records are attributed to the right tags.
  ghost predicate Attributed(polls: seq<Poll>) {
    forall k | 0 <= k < |polls| ::
      |polls[k].numbers| == |polls[k].names| && AttributesCorrectly(polls[k].numbers, TypesOf(polls[k].names))
  }

  lemma {:induction false} AnsweredIs(p: Poll)
    ensures Answered(p) == Tagged(p.names, SamplesOf(p.records, TypesOf(p.names)), p.host)
  {
    hide EncodeRecords, Tagged;
    var data := EncodeRecords(p.records);
    assert data[0..] == data;
    SamplesOfRecords(data, 0, p.records, [], TypesOf(p.names));
  }

  lemma {:induction false} MatchedReadsDeliver(polls: seq<Poll>, tag: bytes, t: Truth, ws: seq<Window>)
    requires InOrder(t, ws) && Match(polls, tag, t, ws) && Attributed(polls)
    ensures Project(AllAnswered(polls), tag) == AllDelivered(t, ws)
    decreases |polls|
  {
    hide Project, Answered, ObsOf, AttributesCorrectly;
    if polls == [] {
      ProjectNothing(tag);
    } else {
      var p, earlier := polls[|polls| - 1], polls[..|polls| - 1];
      AnsweredIs(p);
      ProjectAppend(AllAnswered(earlier), Answered(p), tag);
      if Names(p.names, tag) {
        var i :| 0 <= i < |p.names| && p.names[i].0 == tag && Carries(p, i, t, ws[|ws| - 1]);
        MatchedReadsDeliver(earlier, tag, t, ws[..|ws| - 1]);
        AttributionExactlyWhen(p.numbers, TypesOf(p.names));
        ProjectRecords(p.names, p.records, p.host, i);
      } else {
        MatchedReadsDeliver(earlier, tag, t, ws);
        ProjectOthers(p.names, SamplesOf(p.records, TypesOf(p.names)), p.host, tag);
      }
    }
  }

  // From the bytes of any number of overlapping reads, in any interleaving with other instances and
  // other tags, a tag's series is its true sample stream: every sample up to the furthest one
  // delivered, once, in order, at its exact relative time.
  lemma {:induction false} ExactlyOnceFromTheWire(polls: seq<Poll>, tag: bytes, t: Truth, ws: seq<Window>)
    requires ValidTruth(t) && InOrder(t, ws) && Match(polls, tag, t, ws) && Attributed(polls)
    ensures High(ws) <= |t.ticks| && forall j | 0 <= j < High(ws) :: t.ticks[0] <= t.ticks[j]
    ensures SeriesOf(IngestAll(EMPTY, AllAnswered(polls)), tag) == TruePoints(t, FirstHost(ws), High(ws))
  {
    hide Match, InOrder, ValidTruth, Attributed;
    MatchedReadsDeliver(polls, tag, t, ws);
    ExactlyOnceInterleaved(t, ws, AllAnswered(polls), tag);
  }

  // ---- exactly once, over a run of the streamer ----

  // The request is answered with these records; a refused read gives none.
  predicate Replies(v: Verdict, rs: seq<Record>) {
    match v
    case Obey(_, samples) => samples == EncodeRecords(rs)
    case Refuse(_) => rs == []
    case Drop => false
  }

  ghost predicate RepliesFrom(verdicts: nat -> Verdict, answers: nat -> seq<Record>, clock: nat, n: nat) {
    forall c: nat | clock <= c < clock + n :: Replies(verdicts(c), answers(c))
  }

  // The reads of so many cycles, starting with request number `clock`.
  ghost predicate RepliesToAll(
    verdicts: nat -> Verdict, answers: nat -> seq<Record>, clock: nat, n: nat, hosts: seq<real>)
    decreases |hosts|
  {
    hosts == []
    || (RepliesFrom(verdicts, answers, clock, n) && RepliesToAll(verdicts, answers, clock + n, n, hosts[1..]))
  }

  function CyclePolls(
    chunks: seq<Tags>, numbers: seq<seq<uint16>>, answers: nat -> seq<Record>, clock: nat, host: real): seq<Poll>
    requires |numbers| == |chunks|
  {
    if chunks == [] then []
    else
      var n := |chunks| - 1;
      CyclePolls(chunks[..n], numbers[..n], answers, clock, host)
      + [Poll(chunks[n], numbers[n], answers(clock + n), host)]
  }

  function RunPolls(
    chunks: seq<Tags>, numbers: seq<seq<uint16>>, answers: nat -> seq<Record>, clock: nat, hosts: seq<real>): seq<Poll>
    requires |numbers| == |chunks|
    decreases |hosts|
  {
    if hosts == [] then []
    else
      CyclePolls(chunks, numbers, answers, clock, hosts[0])
      + RunPolls(chunks, numbers, answers, clock + |chunks|, hosts[1..])
  }

  lemma {:induction false} AnsweredSnoc(polls: seq<Poll>, p: Poll)
    ensures AllAnswered(polls + [p]) == AllAnswered(polls) + Answered(p)
  {
    hide Answered;
    assert (polls + [p])[..|polls|] == polls;
  }

  lemma {:induction false} AnsweredAppend(a: seq<Poll>, b: seq<Poll>)
    ensures AllAnswered(a + b) == AllAnswered(a) + AllAnswered(b)
    decreases |b|
  {
    hide Answered;
    if b == [] {
      assert a + b == a && AllAnswered(a) + [] == AllAnswered(a);
    } else {
      var n := |b| - 1;
      AnsweredAppend(a, b[..n]);
      assert a + b == (a + b[..n]) + [b[n]];
      AnsweredSnoc(a + b[..n], b[n]);
      Regroup(AllAnswered(a), AllAnswered(b[..n]), Answered(b[n]));
    }
  }

  lemma ReadingIsAnswered(names: Tags, numbers: seq<uint16>, v: Verdict, rs: seq<Record>, host: real)
    requires Replies(v, rs)
    ensures Reading(names, v, host) == Answered(Poll(names, numbers, rs, host))
  {
    hide SamplesFrom, Tagged;
    if v.Refuse? {
      AnsweredIs(Poll(names, numbers, rs, host));
      assert SamplesOf(rs, TypesOf(names)) == [];
      NothingTagged(names, host);
    }
  }

  // What a cycle takes in are the answers to its polls.
  lemma {:induction false} ArrivedIsAnswered(
    chunks: seq<Tags>, numbers: seq<seq<uint16>>, verdicts: nat -> Verdict, answers: nat -> seq<Record>,
    clock: nat, host: real)
    requires |numbers| == |chunks| && RepliesFrom(verdicts, answers, clock, |chunks|)
    ensures Arrived(chunks, verdicts, clock, host) == AllAnswered(CyclePolls(chunks, numbers, answers, clock, host))
    decreases |chunks|
  {
    hide Reading, Answered, Replies;
    if chunks != [] {
      var n := |chunks| - 1;
      ArrivedIsAnswered(chunks[..n], numbers[..n], verdicts, answers, clock, host);
      ReadingIsAnswered(chunks[n], numbers[n], verdicts(clock + n), answers(clock + n), host);
      AnsweredSnoc(CyclePolls(chunks[..n], numbers[..n], answers, clock, host),
                   Poll(chunks[n], numbers[n], answers(clock + n), host));
    }
  }

  lemma RunStep(
    chunks: seq<Tags>, numbers: seq<seq<uint16>>, answers: nat -> seq<Record>, clock: nat, hosts: seq<real>, i: nat)
    requires |numbers| == |chunks| && i < |hosts|
    ensures AllAnswered(RunPolls(chunks, numbers, answers, clock, hosts[i..]))
         == AllAnswered(CyclePolls(chunks, numbers, answers, clock, hosts[i]))
            + AllAnswered(RunPolls(chunks, numbers, answers, clock + |chunks|, hosts[i + 1..]))
  {
    hide CyclePolls, AllAnswered;
    assert hosts[i..][0] == hosts[i] && hosts[i..][1..] == hosts[i + 1..];
    AnsweredAppend(CyclePolls(chunks, numbers, answers, clock, hosts[i]),
                   RunPolls(chunks, numbers, answers, clock + |chunks|, hosts[i + 1..]));
  }

  lemma RepliesStep(
    verdicts: nat -> Verdict, answers: nat -> seq<Record>, clock: nat, n: nat, hosts: seq<real>, i: nat)
    requires i < |hosts| && RepliesToAll(verdicts, answers, clock, n, hosts[i..])
    ensures RepliesFrom(verdicts, answers, clock, n) && RepliesToAll(verdicts, answers, clock + n, n, hosts[i + 1..])
    ensures forall c: nat | clock <= c < clock + n :: !verdicts(c).Drop?
  {
    assert hosts[i..][1..] == hosts[i + 1..];
  }

  lemma NothingPolled(
    chunks: seq<Tags>, numbers: seq<seq<uint16>>, answers: nat -> seq<Record>, clock: nat, hosts: seq<real>)
    requires |numbers| == |chunks|
    ensures AllAnswered(RunPolls(chunks, numbers, answers, clock, hosts[|hosts|..])) == []
  {
  }

  // Any number of cycles, all of them answered: the streamer goes on running, and has taken in the
  // answers to all its polls.
  method Stream(stream: DataStream, hosts: seq<real>, ghost chunks: seq<Tags>, ghost numbers: seq<seq<uint16>>,
                ghost answers: nat -> seq<Record>)
    requires stream.Valid() && stream.running && Named(stream.trends, chunks) && |numbers| == |chunks|
    requires forall k | 0 <= k < |hosts| :: hosts[k] >= 0.0
    requires RepliesToAll(stream.conn.verdicts, answers, stream.conn.clock, |chunks|, hosts)
    modifies stream`running, stream`trendTime, stream`numeric, stream`seen, stream.conn
    ensures stream.Valid() && stream.running && stream.PlotIsSeen()
    ensures stream.seen
         == old(stream.seen) + AllAnswered(RunPolls(chunks, numbers, answers, old(stream.conn.clock), hosts))
    ensures stream.Plot()
         == IngestAll(old(stream.Plot()),
                      AllAnswered(RunPolls(chunks, numbers, answers, old(stream.conn.clock), hosts)))
  {
    hide Layered, Named, Arrived, AllAnswered, CyclePolls, RunPolls, RepliesToAll, RepliesFrom;
    ghost var link, all := stream.conn, AllAnswered(RunPolls(chunks, numbers, answers, stream.conn.clock, hosts));
    assert hosts[0..] == hosts;
    for i := 0 to |hosts|
      invariant stream.Valid() && stream.running && stream.conn == link && Named(stream.trends, chunks)
      invariant RepliesToAll(link.verdicts, answers, link.clock, |chunks|, hosts[i..])
      invariant stream.seen + AllAnswered(RunPolls(chunks, numbers, answers, link.clock, hosts[i..]))
             == old(stream.seen) + all
    {
      ghost var clock, seen := link.clock, stream.seen;
      NamedLength(stream.trends, chunks);
      RepliesStep(link.verdicts, answers, clock, |chunks|, hosts, i);
      RunStep(chunks, numbers, answers, clock, hosts, i);
      ArrivedIsAnswered(chunks, numbers, link.verdicts, answers, clock, hosts[i]);
      var gotData, read := stream.PollCycle(hosts[i], chunks);
      assert chunks[..|chunks|] == chunks;
      Regroup(seen, Arrived(chunks, link.verdicts, clock, hosts[i]),
              AllAnswered(RunPolls(chunks, numbers, answers, clock + |chunks|, hosts[i + 1..])));
    }
    NothingPolled(chunks, numbers, answers, link.clock, hosts);
    assert stream.seen + [] == stream.seen;
    IngestAppend(EMPTY, old(stream.seen), all);
  }

  // The numbers the PLC has given to the tags of each instance.
  function NumbersOf(ts: seq<TrendInstance>): (numbers: seq<seq<uint16>>)
    reads ts
    ensures |numbers| == |ts|
  {
    seq(|ts|, k requires 0 <= k < |ts| reads ts => seq(|ts[k].tags|, i requires 0 <= i < |ts[k].tags| reads ts =>
      ts[k].tags[i].tagNumber))
  }

  // After any number of answered cycles, a tag's plotted series is its true sample stream, when the
  // records with the tag's number deliver that stream in overlapping windows and the PLC's numbers are
  // the positions of the tags.
  method StreamExactlyOnce(stream: DataStream, hosts: seq<real>, ghost chunks: seq<Tags>,
                           ghost answers: nat -> seq<Record>, ghost tag: bytes, ghost t: Truth, ghost ws: seq<Window>)
    requires stream.Valid() && stream.running && Named(stream.trends, chunks) && stream.seen == []
    requires forall k | 0 <= k < |hosts| :: hosts[k] >= 0.0
    requires RepliesToAll(stream.conn.verdicts, answers, stream.conn.clock, |chunks|, hosts)
    requires ValidTruth(t) && InOrder(t, ws) && |stream.trends| == |chunks|
    requires var polls := RunPolls(chunks, NumbersOf(stream.trends), answers, stream.conn.clock, hosts);
             Attributed(polls) && Match(polls, tag, t, ws)
    modifies stream`running, stream`trendTime, stream`numeric, stream`seen, stream.conn
    ensures stream.Valid() && stream.running
    ensures High(ws) <= |t.ticks| && forall j | 0 <= j < High(ws) :: t.ticks[0] <= t.ticks[j]
    ensures SeriesOf(stream.Plot(), tag) == TruePoints(t, FirstHost(ws), High(ws))
  {
    hide Layered, Named, Attributed, Match, InOrder, ValidTruth, AllAnswered, RunPolls, RepliesToAll, NumbersOf;
    ghost var numbers := NumbersOf(stream.trends);
    ghost var polls := RunPolls(chunks, numbers, answers, stream.conn.clock, hosts);
    Stream(stream, hosts, chunks, numbers, answers);
    assert [] + AllAnswered(polls) == AllAnswered(polls);
    ExactlyOnceFromTheWire(polls, tag, t, ws);
  }
}
