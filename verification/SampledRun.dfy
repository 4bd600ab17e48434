// The whole way of a sample: taken at an instant of its trend, kept in the buffer until a read drains
// it, decoded, and plotted once.
module SampledRuns {
  import opened Bytes
  import opened Sizing
  import opened TimeSeries
  import opened TrendMessages
  import opened TrendPlc
  import opened TrendInstances
  import opened DataStreams
  import opened StreamGuarantees
  import opened RecordQueues
  import Polling = PollSchedule

  // ---- what the PLC writes into a record ----

  // What was sampled: by instance, instant and place of the tag.
  type Values = (nat, nat, nat) -> Raw

  // The PLC's clock at an instant, in ticks of 128 us. A record has the low 32 bits of it.
  function Stamp(c: Polling.Setup, i: nat, instant: nat): nat
    requires i < |c.phase|
  {
    (c.phase[i] + instant * c.rate) / 128
  }

  function RecordOf(c: Polling.Setup, i: nat, numbers: seq<uint16>, values: Values, e: Entry): Record
    requires i < |c.phase|
  {
    Record(if e.tag < |numbers| then numbers[e.tag] else 0, Stamp(c, i, e.instant) % WRAP,
           values(i, e.instant, e.tag))
  }

  function RecordsOf(c: Polling.Setup, i: nat, numbers: seq<uint16>, values: Values, es: seq<Entry>): (rs: seq<Record>)
    requires i < |c.phase|
    ensures |rs| == |es|
  {
    seq(|es|, m requires 0 <= m < |es| => RecordOf(c, i, numbers, values, es[m]))
  }

  // The samples of one tag at the instants lo, lo + 1, ..., hi - 1.
  function TruthOf(c: Polling.Setup, i: nat, j: nat, dataType: uint16, values: Values, lo: nat, hi: nat): (t: Truth)
    requires i < |c.phase| && lo <= hi
    ensures |t.ticks| == |t.values| == hi - lo
  {
    Truth(seq<nat>(hi - lo, m requires 0 <= m < hi - lo => Stamp(c, i, lo + m)),
          seq(hi - lo, m requires 0 <= m < hi - lo => Interpret(values(i, lo + m, j), dataType)))
  }

  lemma {:induction false} StampsIncrease(c: Polling.Setup, i: nat, a: nat, b: nat)
    requires i < |c.phase| && c.rate >= 128 && a < b
    ensures Stamp(c, i, a) < Stamp(c, i, b)
  {
    MulMono(a + 1, b, c.rate);
    assert (a + 1) * c.rate == a * c.rate + c.rate;
    DivMono(c.phase[i] + a * c.rate + 128, c.phase[i] + b * c.rate, 128);
  }

  // Sampled no faster than the clock ticks, and for less than one turn of its 32 bits.
  ghost predicate Countable(c: Polling.Setup, i: nat, lo: nat, hi: nat)
    requires i < |c.phase|
  {
    c.rate >= 128 && (lo < hi ==> Stamp(c, i, hi - 1) - Stamp(c, i, lo) < WRAP)
  }

  lemma {:induction false} TruthIsValid(
    c: Polling.Setup, i: nat, j: nat, dataType: uint16, values: Values, lo: nat, hi: nat)
    requires i < |c.phase| && lo <= hi && Countable(c, i, lo, hi)
    ensures ValidTruth(TruthOf(c, i, j, dataType, values, lo, hi))
  {
    hide Stamp;
    var t := TruthOf(c, i, j, dataType, values, lo, hi);
    forall a, b | 0 <= a < b < |t.ticks| ensures t.ticks[a] < t.ticks[b] { StampsIncrease(c, i, lo + a, lo + b); }
  }

  // ---- what a delivery holds of one tag ----

  // The PLC numbers the tags of an instance 1, 2, 3, ...
  predicate InSequence(numbers: seq<uint16>) { forall m | 0 <= m < |numbers| :: numbers[m] == m + 1 }

  lemma {:induction false} ObsAppend(a: seq<Record>, b: seq<Record>, number: int, dataType: uint16, host: real)
    ensures ObsOf(a + b, number, dataType, host) == ObsOf(a, number, dataType, host) + ObsOf(b, number, dataType, host)
    decreases |b|
  {
    hide Interpret;
    if b == [] {
      assert a + b == a;
    } else {
      var n := |b| - 1;
      ObsAppend(a, b[..n], number, dataType, host);
      assert (a + b)[..|a + b| - 1] == a + b[..n];
    }
  }

  // At one instant there is one record with the number.
  lemma {:induction false} InstantObs(
    c: Polling.Setup, i: nat, j: nat, numbers: seq<uint16>, values: Values, k: nat, tags: nat, dataType: uint16,
    host: real)
    requires i < |c.phase| && InSequence(numbers) && tags <= |numbers| && j < |numbers|
    ensures ObsOf(RecordsOf(c, i, numbers, values, Instant(k, tags)), numbers[j] as int, dataType, host)
         == if tags <= j then [] else [Obs(Stamp(c, i, k) % WRAP, Interpret(values(i, k, j), dataType), host)]
    decreases tags
  {
    hide Interpret, Stamp, RecordsOf, ObsOf;
    if tags == 0 {
      assert RecordsOf(c, i, numbers, values, Instant(k, 0)) == [];
      NoRecords(numbers[j] as int, dataType, host);
    } else {
      InstantObs(c, i, j, numbers, values, k, tags - 1, dataType, host);
      InstantRecords(c, i, numbers, values, k, tags);
      ObsSnoc(RecordsOf(c, i, numbers, values, Instant(k, tags - 1)),
              RecordOf(c, i, numbers, values, Entry(k, tags - 1)), numbers[j] as int, dataType, host);
    }
  }

  lemma {:induction false} InstantRecords(
    c: Polling.Setup, i: nat, numbers: seq<uint16>, values: Values, k: nat, tags: nat)
    requires i < |c.phase| && tags > 0
    ensures RecordsOf(c, i, numbers, values, Instant(k, tags))
         == RecordsOf(c, i, numbers, values, Instant(k, tags - 1))
            + [RecordOf(c, i, numbers, values, Entry(k, tags - 1))]
  {
    hide RecordOf;
  }

  lemma {:induction false} ObsSnoc(rs: seq<Record>, r: Record, number: int, dataType: uint16, host: real)
    ensures ObsOf(rs + [r], number, dataType, host)
         == ObsOf(rs, number, dataType, host)
            + (if r.number == number then [Obs(r.ts, Interpret(r.raw, dataType), host)] else [])
  {
    hide Interpret;
    assert (rs + [r])[..|rs|] == rs;
  }

  // A delivery of all samples of a stretch is a window of the truth.
  lemma {:induction false} SampledObs(
    c: Polling.Setup, i: nat, j: nat, numbers: seq<uint16>, values: Values, lo: nat, from: nat, upto: nat, hi: nat,
    dataType: uint16, host: real)
    requires i < |c.phase| && InSequence(numbers) && j < |numbers| && lo <= from <= upto <= hi
    ensures ObsOf(RecordsOf(c, i, numbers, values, Sampled(from, upto, |numbers|)), numbers[j] as int, dataType, host)
         == Delivered(TruthOf(c, i, j, dataType, values, lo, hi), Window(from - lo, upto - lo, host))
    decreases upto
  {
    hide Interpret, Stamp, ObsOf;
    if from == upto {
      NoRecords(numbers[j] as int, dataType, host);
      assert RecordsOf(c, i, numbers, values, Sampled(from, upto, |numbers|)) == [];
    } else {
      var before, here := Sampled(from, upto - 1, |numbers|), Instant(upto - 1, |numbers|);
      SampledObs(c, i, j, numbers, values, lo, from, upto - 1, hi, dataType, host);
      InstantObs(c, i, j, numbers, values, upto - 1, |numbers|, dataType, host);
      ObsAppend(RecordsOf(c, i, numbers, values, before), RecordsOf(c, i, numbers, values, here),
                numbers[j] as int, dataType, host);
      assert RecordsOf(c, i, numbers, values, before + here)
          == RecordsOf(c, i, numbers, values, before) + RecordsOf(c, i, numbers, values, here);
    }
  }

  lemma {:induction false} NoRecords(number: int, dataType: uint16, host: real)
    ensures ObsOf([], number, dataType, host) == []
  {
  }

  // ---- the reads of a run ----

  // What the PLC is set up with: for each instance its tags, under the numbers 1, 2, 3, ...; the tag
  // looked at is number j of instance i and of no other.
  ghost predicate Carried(c: Polling.Setup, chunks: seq<Tags>, numbers: seq<seq<uint16>>, i: nat, j: nat) {
    && Polling.Valid(c) && |chunks| == |numbers| == |c.tags|
    && (forall k | 0 <= k < |chunks| :: |chunks[k]| == |numbers[k]| == c.tags[k] && InSequence(numbers[k]))
    && i < |chunks| && j < |chunks[i]| && DistinctNames(chunks[i])
    && forall k | 0 <= k < |chunks| && k != i :: !Names(chunks[k], chunks[i][j].0)
  }

  // What the last read of a run is answered with.
  ghost function Reply(
    c: Polling.Setup, t0: nat, rs: seq<Polling.Read>, numbers: seq<seq<uint16>>, values: Values): seq<Record>
    requires Polling.Valid(c) && |numbers| == |c.tags| && rs != []
  {
    var i := Polling.Run(c, t0, rs[..|rs| - 1]).turn;
    RecordsOf(c, i, numbers[i], values, Delivery(c, t0, rs))
  }

  ghost function Polled(
    c: Polling.Setup, t0: nat, rs: seq<Polling.Read>, chunks: seq<Tags>, numbers: seq<seq<uint16>>, values: Values,
    host: nat -> real): (polls: seq<Poll>)
    requires Polling.Valid(c) && |chunks| == |numbers| == |c.tags|
    ensures |polls| == |rs|
  {
    if rs == [] then []
    else
      var n := |rs| - 1;
      var i := Polling.Run(c, t0, rs[..n]).turn;
      Polled(c, t0, rs[..n], chunks, numbers, values, host)
      + [Poll(chunks[i], numbers[i], Reply(c, t0, rs, numbers, values), host(n))]
  }

  // Samples taken since polling began.
  function Taken(c: Polling.Setup, i: nat, t0: nat, t: nat): nat
    requires c.rate > 0 && i < |c.phase|
  {
    if t <= t0 then 0 else
      Polling.TicksMono(c, i, t0, t);
      Polling.Ticks(c, i, t) - Polling.Ticks(c, i, t0)
  }

  // The windows of the truth that the reads of instance i deliver.
  ghost function Windows(c: Polling.Setup, t0: nat, rs: seq<Polling.Read>, i: nat, host: nat -> real): seq<Window>
    requires Polling.Valid(c) && i < |c.tags|
  {
    if rs == [] then []
    else
      var n := |rs| - 1;
      var s, earlier := Polling.Run(c, t0, rs[..n]), Windows(c, t0, rs[..n], i, host);
      if s.turn != i then earlier
      else earlier + [Window(Taken(c, i, t0, s.since[i]), Taken(c, i, t0, s.now + rs[n].before), host(n))]
  }

  // How many samples the reads of instance i have delivered.
  ghost function Reached(c: Polling.Setup, t0: nat, rs: seq<Polling.Read>, i: nat): nat
    requires Polling.Valid(c) && i < |c.tags|
  {
    Taken(c, i, t0, Polling.Run(c, t0, rs).since[i])
  }

  lemma {:induction false} SinceStart(c: Polling.Setup, t0: nat, rs: seq<Polling.Read>)
    requires Polling.Valid(c)
    ensures var s := Polling.Run(c, t0, rs); t0 <= s.now && forall i | 0 <= i < |c.tags| :: t0 <= s.since[i]
    decreases |rs|
  {
    if rs != [] {
      hide Polling.Step;
      var n := |rs| - 1;
      SinceStart(c, t0, rs[..n]);
      Polling.StepMoves(c, Polling.Run(c, t0, rs[..n]), rs[n]);
    }
  }

  lemma {:induction false} ArrivalsObs(
    c: Polling.Setup, i: nat, j: nat, numbers: seq<uint16>, values: Values, t0: nat, a: nat, b: nat, hi: nat,
    dataType: uint16, host: real)
    requires c.rate > 0 && i < |c.phase| == |c.tags| && c.tags[i] == |numbers| && InSequence(numbers) && j < |numbers|
    requires t0 <= a <= b && Taken(c, i, t0, b) <= hi
    ensures Taken(c, i, t0, a) <= Taken(c, i, t0, b)
    ensures var lo := Polling.Ticks(c, i, t0);
            ObsOf(RecordsOf(c, i, numbers, values, Arrivals(c, i, a, b)), numbers[j] as int, dataType, host)
            == Delivered(TruthOf(c, i, j, dataType, values, lo, lo + hi),
                         Window(Taken(c, i, t0, a), Taken(c, i, t0, b), host))
  {
    hide ObsOf, Polling.Ticks, RecordsOf, InSequence, TruthOf, Delivered;
    Polling.TicksMono(c, i, t0, a);
    Polling.TicksMono(c, i, a, b);
    var lo := Polling.Ticks(c, i, t0);
    SampledObs(c, i, j, numbers, values, lo, Polling.Ticks(c, i, a), Polling.Ticks(c, i, b), lo + hi, dataType, host);
  }

  // One read of instance i: it delivers the samples between the last drain and this one.
  lemma {:induction false} ReadDelivers(
    c: Polling.Setup, t0: nat, rs: seq<Polling.Read>, chunks: seq<Tags>, numbers: seq<seq<uint16>>, values: Values,
    i: nat, j: nat, hi: nat, host: real)
    requires Carried(c, chunks, numbers, i, j) && rs != [] && !Polling.Run(c, t0, rs).lost
    requires Polling.Run(c, t0, rs[..|rs| - 1]).turn == i && Reached(c, t0, rs, i) <= hi
    ensures Reached(c, t0, rs[..|rs| - 1], i) <= Reached(c, t0, rs, i)
    ensures var lo, s := Polling.Ticks(c, i, t0), Polling.Run(c, t0, rs[..|rs| - 1]);
            && Reached(c, t0, rs, i) == Taken(c, i, t0, s.now + rs[|rs| - 1].before)
            && ObsOf(Reply(c, t0, rs, numbers, values), numbers[i][j] as int, chunks[i][j].1, host)
               == Delivered(TruthOf(c, i, j, chunks[i][j].1, values, lo, lo + hi),
                            Window(Reached(c, t0, rs[..|rs| - 1], i), Reached(c, t0, rs, i), host))
  {
    hide ObsOf, Polling.Step, Polling.Ticks, TruthOf, Taken, Arrivals, RecordsOf, Delivered, DistinctNames, Names;
    var n := |rs| - 1;
    var s := Polling.Run(c, t0, rs[..n]);
    SinceStart(c, t0, rs[..n]);
    Polling.StepMoves(c, s, rs[n]);
    RunIsComplete(c, t0, rs);
    ArrivalsObs(c, i, j, numbers[i], values, t0, s.since[i], s.now + rs[n].before, hi, chunks[i][j].1, host);
  }

  lemma {:induction false} MatchMine(
    polls: seq<Poll>, p: Poll, i: nat, t: Truth, ws: seq<Window>, w: Window)
    requires InOrder(t, ws) && i < |p.names| == |p.numbers| && Match(polls, p.names[i].0, t, ws)
    requires w.from <= High(ws) && w.from <= w.to <= |t.ticks| && w.host >= 0.0 && Carries(p, i, t, w)
    ensures InOrder(t, ws + [w]) && High(ws + [w]) == Max(High(ws), w.to)
    ensures Match(polls + [p], p.names[i].0, t, ws + [w])
  {
    hide Carries;
    assert (ws + [w])[..|ws|] == ws && (polls + [p])[..|polls|] == polls;
  }

  lemma {:induction false} MatchOther(polls: seq<Poll>, p: Poll, tag: bytes, t: Truth, ws: seq<Window>)
    requires InOrder(t, ws) && Match(polls, tag, t, ws) && !Names(p.names, tag)
    ensures Match(polls + [p], tag, t, ws)
  {
    hide Carries, Names;
    assert (polls + [p])[..|polls|] == polls;
  }

  // The reads of a run without loss deliver the tag's samples in windows that follow on each other.
  lemma {:induction false} RunMatches(
    c: Polling.Setup, t0: nat, rs: seq<Polling.Read>, chunks: seq<Tags>, numbers: seq<seq<uint16>>, values: Values,
    host: nat -> real, i: nat, j: nat, hi: nat)
    requires Carried(c, chunks, numbers, i, j) && !Polling.Run(c, t0, rs).lost && Reached(c, t0, rs, i) <= hi
    requires forall k: nat | k < |rs| :: host(k) >= 0.0
    ensures var lo := Polling.Ticks(c, i, t0);
            var t, ws := TruthOf(c, i, j, chunks[i][j].1, values, lo, lo + hi), Windows(c, t0, rs, i, host);
            && InOrder(t, ws) && High(ws) == Reached(c, t0, rs, i)
            && Match(Polled(c, t0, rs, chunks, numbers, values, host), chunks[i][j].0, t, ws)
    decreases |rs|
  {
    hide Polling.Step, Taken, TruthOf, Reply, ObsOf, Delivered, Match, InOrder, High;
    if rs == [] {
      NothingReached(c, t0, i);
      NothingMatched(TruthOf(c, i, j, chunks[i][j].1, values, Polling.Ticks(c, i, t0), Polling.Ticks(c, i, t0) + hi),
                     chunks[i][j].0);
    } else {
      var n, lo := |rs| - 1, Polling.Ticks(c, i, t0);
      var s, t := Polling.Run(c, t0, rs[..n]), TruthOf(c, i, j, chunks[i][j].1, values, lo, lo + hi);
      var polls, ws := Polled(c, t0, rs[..n], chunks, numbers, values, host), Windows(c, t0, rs[..n], i, host);
      var p := Poll(chunks[s.turn], numbers[s.turn], Reply(c, t0, rs, numbers, values), host(n));
      LossStays(c, s, rs[n]);
      Polling.StepMoves(c, s, rs[n]);
      if s.turn == i {
        ReadDelivers(c, t0, rs, chunks, numbers, values, i, j, hi, host(n));
        RunMatches(c, t0, rs[..n], chunks, numbers, values, host, i, j, hi);
        MatchMine(polls, p, j, t, ws, Window(Reached(c, t0, rs[..n], i), Reached(c, t0, rs, i), host(n)));
      } else {
        RunMatches(c, t0, rs[..n], chunks, numbers, values, host, i, j, hi);
        MatchOther(polls, p, chunks[i][j].0, t, ws);
      }
    }
  }

  lemma {:induction false} NothingMatched(t: Truth, tag: bytes)
    requires |t.ticks| == |t.values|
    ensures InOrder(t, []) && High([]) == 0 && Match([], tag, t, [])
  {
  }

  lemma {:induction false} NothingReached(c: Polling.Setup, t0: nat, i: nat)
    requires Polling.Valid(c) && i < |c.tags|
    ensures Reached(c, t0, [], i) == 0
  {
  }

  lemma {:induction false} RunAttributed(
    c: Polling.Setup, t0: nat, rs: seq<Polling.Read>, chunks: seq<Tags>, numbers: seq<seq<uint16>>, values: Values,
    host: nat -> real)
    requires Polling.Valid(c) && |chunks| == |numbers| == |c.tags|
    requires forall k | 0 <= k < |chunks| :: |chunks[k]| == |numbers[k]| && InSequence(numbers[k])
    ensures Attributed(Polled(c, t0, rs, chunks, numbers, values, host))
    decreases |rs|
  {
    hide Reply, AttributesCorrectly, Polling.Run;
    if rs != [] {
      var n := |rs| - 1;
      var i := Polling.Run(c, t0, rs[..n]).turn;
      RunAttributed(c, t0, rs[..n], chunks, numbers, values, host);
      AttributionExactlyWhen(numbers[i], TypesOf(chunks[i]));
    }
  }

  // Two times apart by so many microseconds, to within one tick of 128.
  predicate Apart(earlier: real, later: real, us: int) { -128.0 < (later - earlier) * 1000000.0 - us as real < 128.0 }

  // When a sample is plotted, in seconds: `base` at instant lo, and then by the PLC's clock.
  function PlotTime(c: Polling.Setup, i: nat, lo: nat, instant: nat, base: real): real
    requires i < |c.phase|
  {
    base + ((Stamp(c, i, instant) - Stamp(c, i, lo)) * 128) as real / 1000000.0
  }

  // The series is what instance i has sampled of its tag j at n instants from number lo on, and any two
  // points are as far apart as the sampling rate says.
  ghost predicate PlotsAll(
    series: seq<Point>, c: Polling.Setup, i: nat, j: nat, dataType: uint16, values: Values, lo: nat, n: nat, base: real)
    requires i < |c.phase|
  {
    PlotsEach(series, c, i, j, dataType, values, lo, n, base) && AtRate(series, c.rate)
  }

  ghost predicate PlotsEach(
    series: seq<Point>, c: Polling.Setup, i: nat, j: nat, dataType: uint16, values: Values, lo: nat, n: nat, base: real)
    requires i < |c.phase|
  {
    |series| == n && forall k: nat | k < n ::
      series[k] == Point(PlotTime(c, i, lo, lo + k, base), Interpret(values(i, lo + k, j), dataType))
  }

  ghost predicate AtRate(series: seq<Point>, rate: nat) {
    forall k, m | 0 <= k < |series| && 0 <= m < |series| :: Apart(series[k].time, series[m].time, (m - k) * rate)
  }

  // The clock runs with the sampling instants.
  lemma {:induction false} StampsApart(c: Polling.Setup, i: nat, a: nat, b: nat)
    requires i < |c.phase|
    ensures -128 < (Stamp(c, i, b) - Stamp(c, i, a)) * 128 - (b - a) * c.rate < 128
  {
    DivBounds(c.phase[i] + a * c.rate, 128);
    DivBounds(c.phase[i] + b * c.rate, 128);
    assert (b - a) * c.rate == b * c.rate - a * c.rate;
  }

  lemma {:induction false} TruthPlotted(
    c: Polling.Setup, i: nat, j: nat, dataType: uint16, values: Values, lo: nat, n: nat, base: real)
    requires i < |c.phase|
    requires var t := TruthOf(c, i, j, dataType, values, lo, lo + n); forall k | 0 <= k < n :: t.ticks[0] <= t.ticks[k]
    ensures PlotsAll(TruePoints(TruthOf(c, i, j, dataType, values, lo, lo + n), base, n), c, i, j, dataType, values,
                     lo, n, base)
  {
    hide Stamp, Interpret, PlotTime, At, AtRate;
    var t := TruthOf(c, i, j, dataType, values, lo, lo + n);
    var series := TruePoints(t, base, n);
    forall k: nat | k < n
      ensures series[k].time == PlotTime(c, i, lo, lo + k, base)
    {
      assert t.ticks[0] == Stamp(c, i, lo) && t.ticks[k] == Stamp(c, i, lo + k);
      TruthTime(c, i, lo, lo + k, base);
    }
    EachIsAtRate(series, c, i, j, dataType, values, lo, n, base);
  }

  lemma {:induction false} EachIsAtRate(
    series: seq<Point>, c: Polling.Setup, i: nat, j: nat, dataType: uint16, values: Values, lo: nat, n: nat, base: real)
    requires i < |c.phase| && PlotsEach(series, c, i, j, dataType, values, lo, n, base)
    ensures AtRate(series, c.rate)
  {
    hide Interpret, Apart, PlotTime;
    forall k, m | 0 <= k < n && 0 <= m < n ensures Apart(series[k].time, series[m].time, (m - k) * c.rate) {
      TimesApart(c, i, lo, lo + k, lo + m, base);
    }
  }

  lemma {:induction false} TruthTime(c: Polling.Setup, i: nat, lo: nat, instant: nat, base: real)
    requires i < |c.phase| && Stamp(c, i, lo) <= Stamp(c, i, instant)
    ensures At(base, Stamp(c, i, instant) - Stamp(c, i, lo)) == PlotTime(c, i, lo, instant, base)
  {
    hide Stamp;
    TimeInMicroseconds(base, Stamp(c, i, instant) - Stamp(c, i, lo));
  }

  lemma {:induction false} TimesApart(c: Polling.Setup, i: nat, lo: nat, a: nat, b: nat, base: real)
    requires i < |c.phase|
    ensures Apart(PlotTime(c, i, lo, a, base), PlotTime(c, i, lo, b, base), (b - a) * c.rate)
  {
    hide Stamp;
    StampsApart(c, i, a, b);
  }

  // As long as the fill time covers the longest gap between two drains: in any run, whatever the sampling
  // phases, the plotted series of a tag is everything sampled of it, from the beginning of the polling to
  // the last read of its instance, each sample once and at its time by the PLC's clock.
  lemma {:induction false} WholeStream(
    c: Polling.Setup, connectionSize: nat, maxTags: nat, delay: nat, t0: nat, rs: seq<Polling.Read>,
    chunks: seq<Tags>, numbers: seq<seq<uint16>>, values: Values, host: nat -> real, i: nat, j: nat)
    requires Polling.Configured(c, connectionSize, maxTags) && Polling.Paced(rs, delay) && delay <= READ_TIME_US
    requires Polling.LongestGap(c, delay) <= FillTime(c.rate, connectionSize, maxTags)
    requires Carried(c, chunks, numbers, i, j) && forall k: nat | k < |rs| :: host(k) >= 0.0
    requires var lo := Polling.Ticks(c, i, t0); Countable(c, i, lo, lo + Reached(c, t0, rs, i))
    ensures PlotsAll(SeriesOf(IngestAll(EMPTY, AllAnswered(Polled(c, t0, rs, chunks, numbers, values, host))),
                              chunks[i][j].0),
                     c, i, j, chunks[i][j].1, values, Polling.Ticks(c, i, t0), Reached(c, t0, rs, i),
                     FirstHost(Windows(c, t0, rs, i, host)))
  {
    hide Polling.Run, Polling.LongestGap, FillTime, Match, Attributed, InOrder, AllAnswered, Polled, Windows, Reached;
    hide TruthOf, ValidTruth, PlotsAll;
    var lo, n := Polling.Ticks(c, i, t0), Reached(c, t0, rs, i);
    Polling.NoOverflow(c, connectionSize, maxTags, delay, t0, rs);
    RunMatches(c, t0, rs, chunks, numbers, values, host, i, j, n);
    RunAttributed(c, t0, rs, chunks, numbers, values, host);
    TruthIsValid(c, i, j, chunks[i][j].1, values, lo, lo + n);
    ExactlyOnceFromTheWire(Polled(c, t0, rs, chunks, numbers, values, host), chunks[i][j].0,
                           TruthOf(c, i, j, chunks[i][j].1, values, lo, lo + n), Windows(c, t0, rs, i, host));
    TruthPlotted(c, i, j, chunks[i][j].1, values, lo, n, FirstHost(Windows(c, t0, rs, i, host)));
  }

  // ---- the streamer on such a PLC ----

  // Reads go round the instances.
  lemma {:induction false} TurnIs(c: Polling.Setup, t0: nat, rs: seq<Polling.Read>, m: nat, q: nat)
    requires Polling.Valid(c) && q < |c.tags| && |rs| == m * |c.tags| + q
    ensures Polling.Run(c, t0, rs).turn == q
    decreases |rs|
  {
    hide Polling.Step;
    if rs == [] {
      assert q == 0;
    } else {
      var n := |rs| - 1;
      Polling.StepMoves(c, Polling.Run(c, t0, rs[..n]), rs[n]);
      if q > 0 {
        TurnIs(c, t0, rs[..n], m, q - 1);
      } else {
        assert m > 0 && n == (m - 1) * |c.tags| + (|c.tags| - 1);
        TurnIs(c, t0, rs[..n], m - 1, |c.tags| - 1);
      }
    }
  }

  // The answers to the reads, the first of which is request number `clock`.
  ghost predicate AnsweredBy(
    answers: nat -> seq<Record>, clock: nat, c: Polling.Setup, t0: nat, rs: seq<Polling.Read>,
    numbers: seq<seq<uint16>>, values: Values)
    requires Polling.Valid(c) && |numbers| == |c.tags|
  {
    forall k: nat | clock <= k < clock + |rs| ::
      answers(k) == Reply(c, t0, rs[..k - clock + 1], numbers, values)
  }

  // The host times of the reads: the n reads of a cycle share one.
  function CycleHost(hosts: seq<real>, n: nat): nat -> real {
    (k: nat) => if n > 0 && FloorDiv(k, n) < |hosts| then hosts[FloorDiv(k, n)] else 0.0
  }

  lemma {:induction false} HostInCycle(hosts: seq<real>, n: nat, m: nat, q: nat)
    requires m < |hosts| && q < n
    ensures CycleHost(hosts, n)(m * n + q) == hosts[m]
  {
    assert (m + 1) * n == m * n + n;
    DivAtLeast(m * n + q, n, m);
    DivAtMost(m * n + q, n, m);
  }

  lemma {:induction false} CyclePollsNext(
    chunks: seq<Tags>, numbers: seq<seq<uint16>>, answers: nat -> seq<Record>, clock: nat, host: real, q: nat)
    requires q < |chunks| == |numbers|
    ensures CyclePolls(chunks[..q + 1], numbers[..q + 1], answers, clock, host)
         == CyclePolls(chunks[..q], numbers[..q], answers, clock, host)
            + [Poll(chunks[q], numbers[q], answers(clock + q), host)]
  {
    assert chunks[..q + 1][..q] == chunks[..q] && numbers[..q + 1][..q] == numbers[..q];
  }

  lemma {:induction false} PolledNext(
    c: Polling.Setup, t0: nat, rs: seq<Polling.Read>, chunks: seq<Tags>, numbers: seq<seq<uint16>>, values: Values,
    host: nat -> real, answers: nat -> seq<Record>, clock: nat, k: nat)
    requires Polling.Valid(c) && |chunks| == |numbers| == |c.tags| && k < |rs|
    requires AnsweredBy(answers, clock, c, t0, rs, numbers, values)
    ensures var i := Polling.Run(c, t0, rs[..k]).turn;
            Polled(c, t0, rs[..k + 1], chunks, numbers, values, host)
            == Polled(c, t0, rs[..k], chunks, numbers, values, host)
               + [Poll(chunks[i], numbers[i], answers(clock + k), host(k))]
  {
    hide Reply, Polling.Run;
    assert rs[..k + 1][..k] == rs[..k];
    var m := clock + k;
    assert answers(m) == Reply(c, t0, rs[..m - clock + 1], numbers, values);
  }

  lemma {:induction false} CycleIsPolled(
    c: Polling.Setup, t0: nat, rs: seq<Polling.Read>, chunks: seq<Tags>, numbers: seq<seq<uint16>>, values: Values,
    hosts: seq<real>, answers: nat -> seq<Record>, clock: nat, m: nat, q: nat)
    requires Polling.Valid(c) && |chunks| == |numbers| == |c.tags| && q <= |c.tags|
    requires m < |hosts| && m * |c.tags| + |c.tags| <= |rs|
    requires AnsweredBy(answers, clock, c, t0, rs, numbers, values)
    ensures var at, host := m * |c.tags|, CycleHost(hosts, |c.tags|);
            Polled(c, t0, rs[..at + q], chunks, numbers, values, host)
            == Polled(c, t0, rs[..at], chunks, numbers, values, host)
               + CyclePolls(chunks[..q], numbers[..q], answers, clock + at, hosts[m])
    decreases q
  {
    hide Reply, Polling.Run, CycleHost, CyclePolls, Polled, AnsweredBy, Polling.Valid;
    var at, host := m * |c.tags|, CycleHost(hosts, |c.tags|);
    if q == 0 {
      NoCyclePolls(chunks[..0], numbers[..0], answers, clock + at, hosts[m]);
    } else {
      CycleIsPolled(c, t0, rs, chunks, numbers, values, hosts, answers, clock, m, q - 1);
      TurnIs(c, t0, rs[..at + q - 1], m, q - 1);
      PolledNext(c, t0, rs, chunks, numbers, values, host, answers, clock, at + q - 1);
      HostInCycle(hosts, |c.tags|, m, q - 1);
      CyclePollsNext(chunks, numbers, answers, clock + at, hosts[m], q - 1);
      Regroup(Polled(c, t0, rs[..at], chunks, numbers, values, host),
              CyclePolls(chunks[..q - 1], numbers[..q - 1], answers, clock + at, hosts[m]),
              [Poll(chunks[q - 1], numbers[q - 1], answers(clock + at + q - 1), hosts[m])]);
    }
  }

  lemma {:induction false} NoCyclePolls(
    chunks: seq<Tags>, numbers: seq<seq<uint16>>, answers: nat -> seq<Record>, clock: nat, host: real)
    requires |chunks| == |numbers| == 0
    ensures CyclePolls(chunks, numbers, answers, clock, host) == []
  {
  }

  lemma {:induction false} RunIsPolled(
    c: Polling.Setup, t0: nat, rs: seq<Polling.Read>, chunks: seq<Tags>, numbers: seq<seq<uint16>>, values: Values,
    hosts: seq<real>, answers: nat -> seq<Record>, clock: nat, m: nat)
    requires Polling.Valid(c) && |chunks| == |numbers| == |c.tags|
    requires m <= |hosts| && |rs| == |hosts| * |c.tags|
    requires AnsweredBy(answers, clock, c, t0, rs, numbers, values)
    ensures m * |c.tags| <= |rs|
    ensures Polled(c, t0, rs, chunks, numbers, values, CycleHost(hosts, |c.tags|))
         == Polled(c, t0, rs[..m * |c.tags|], chunks, numbers, values, CycleHost(hosts, |c.tags|))
            + RunPolls(chunks, numbers, answers, clock + m * |c.tags|, hosts[m..])
    decreases |hosts| - m
  {
    hide Polled, CyclePolls, AnsweredBy, CycleHost;
    var n := |c.tags|;
    MulMono(m, |hosts|, n);
    if m == |hosts| {
      assert rs[..m * n] == rs && hosts[m..] == [];
    } else {
      assert (m + 1) * n == m * n + n;
      MulMono(m + 1, |hosts|, n);
      RunIsPolled(c, t0, rs, chunks, numbers, values, hosts, answers, clock, m + 1);
      CycleIsPolled(c, t0, rs, chunks, numbers, values, hosts, answers, clock, m, n);
      assert chunks[..n] == chunks && numbers[..n] == numbers;
      assert hosts[m..][0] == hosts[m] && hosts[m..][1..] == hosts[m + 1..];
      Regroup(Polled(c, t0, rs[..m * n], chunks, numbers, values, CycleHost(hosts, n)),
              CyclePolls(chunks, numbers, answers, clock + m * n, hosts[m]),
              RunPolls(chunks, numbers, answers, clock + m * n + n, hosts[m + 1..]));
    }
  }

  ghost function Answers(
    clock: nat, c: Polling.Setup, t0: nat, rs: seq<Polling.Read>, numbers: seq<seq<uint16>>, values: Values)
    : nat -> seq<Record>
    requires Polling.Valid(c) && |numbers| == |c.tags|
  {
    (m: nat) => if clock <= m < clock + |rs| then Reply(c, t0, rs[..m - clock + 1], numbers, values) else []
  }

  // The reads from request number `clock` on are answered with what the PLC has sampled.
  ghost predicate AnswersSampled(
    verdicts: nat -> Verdict, clock: nat, c: Polling.Setup, t0: nat, rs: seq<Polling.Read>,
    numbers: seq<seq<uint16>>, values: Values)
    requires Polling.Valid(c) && |numbers| == |c.tags|
  {
    forall m: nat | clock <= m < clock + |rs| ::
      Replies(verdicts(m), Reply(c, t0, rs[..m - clock + 1], numbers, values))
  }

  lemma {:induction false} AnswersAre(
    clock: nat, c: Polling.Setup, t0: nat, rs: seq<Polling.Read>, numbers: seq<seq<uint16>>, values: Values,
    verdicts: nat -> Verdict)
    requires Polling.Valid(c) && |numbers| == |c.tags|
    requires AnswersSampled(verdicts, clock, c, t0, rs, numbers, values)
    ensures var answers := Answers(clock, c, t0, rs, numbers, values);
            AnsweredBy(answers, clock, c, t0, rs, numbers, values) && RepliesFrom(verdicts, answers, clock, |rs|)
  {
    hide Reply, Replies;
  }

  lemma {:induction false} AllReply(
    verdicts: nat -> Verdict, answers: nat -> seq<Record>, clock: nat, n: nat, hosts: seq<real>)
    requires RepliesFrom(verdicts, answers, clock, n * |hosts|)
    ensures RepliesToAll(verdicts, answers, clock, n, hosts)
    decreases |hosts|
  {
    hide Replies;
    if hosts != [] {
      assert n * |hosts| == n + n * |hosts[1..]|;
      AllReply(verdicts, answers, clock + n, n, hosts[1..]);
    }
  }

  lemma {:induction false} DistinctParts(a: Tags, b: Tags, tag: bytes)
    requires DistinctNames(a + b)
    ensures DistinctNames(a) && DistinctNames(b) && !(Names(a, tag) && Names(b, tag))
  {
    assert forall m | 0 <= m < |a| :: a[m] == (a + b)[m];
    assert forall m | 0 <= m < |b| :: b[m] == (a + b)[|a| + m];
  }

  lemma {:induction false} NamesInside(chunks: seq<Tags>, k: nat, tag: bytes)
    requires k < |chunks| && Names(chunks[k], tag)
    ensures Names(Flatten(chunks), tag)
    decreases k
  {
    var first, rest := chunks[0], Flatten(chunks[1..]);
    if k == 0 {
      var m :| 0 <= m < |first| && first[m].0 == tag;
      assert (first + rest)[m].0 == tag;
    } else {
      NamesInside(chunks[1..], k - 1, tag);
      var m :| 0 <= m < |rest| && rest[m].0 == tag;
      assert (first + rest)[|first| + m].0 == tag;
    }
  }

  // Distinct names stay distinct within a chunk, and are in one chunk only.
  lemma {:induction false} DistinctInChunks(chunks: seq<Tags>, i: nat, tag: bytes)
    requires DistinctNames(Flatten(chunks)) && i < |chunks| && Names(chunks[i], tag)
    ensures DistinctNames(chunks[i]) && forall k | 0 <= k < |chunks| && k != i :: !Names(chunks[k], tag)
    decreases i
  {
    hide DistinctNames, Names;
    DistinctParts(chunks[0], Flatten(chunks[1..]), tag);
    if i > 0 {
      DistinctInChunks(chunks[1..], i - 1, tag);
      NamesInside(chunks[1..], i - 1, tag);
    }
    forall k | 0 <= k < |chunks| && k != i ensures !Names(chunks[k], tag) {
      if i > 0 {
        assert k > 0 ==> chunks[1..][k - 1] == chunks[k];
      } else if Names(chunks[k], tag) {
        NamesInside(chunks[1..], k - 1, tag);
        assert false;
      }
    }
  }

  lemma {:induction false} SomeName(names: Tags, j: nat)
    requires j < |names|
    ensures Names(names, names[j].0)
  {
  }

  // A start on a PLC that numbers the tags in order sets up what the results on sampled runs assume.
  lemma {:induction false} StartCarries(
    ts: seq<TrendInstance>, selected: Tags, rateUs: nat, connectionSize: nat, phase: seq<nat>, i: nat, j: nat)
    requires selected != [] && DistinctNames(selected) && rateUs > 0
    requires var chunks := BalancedChunks(selected, rateUs, connectionSize);
             && Named(ts, chunks) && AllNumbered(ts) && i < |chunks| == |phase| && j < |chunks[i]|
             && forall k | 0 <= k < |phase| :: phase[k] < rateUs
    ensures Carried(Schedule(selected, rateUs, connectionSize, phase), BalancedChunks(selected, rateUs, connectionSize),
                    NumbersOf(ts), i, j)
  {
    hide BalancedChunks, PerInstance, Sleep, MaxEntries, DistinctNames, Names;
    var chunks := BalancedChunks(selected, rateUs, connectionSize);
    BalancedShape(selected, rateUs, connectionSize);
    SomeName(chunks[i], j);
    DistinctInChunks(chunks, i, chunks[i][j].0);
    NamedLength(ts, chunks);
  }

  // After any number of cycles, every one of them answered with what the PLC has sampled: when the fill
  // time of the setup covers 7 ms per instance and 13 ms more, the plotted series of a tag is everything
  // sampled of it from the beginning of the polling to the last read of its instance.
  method SampledStream(
    stream: DataStream, hosts: seq<real>, ghost chunks: seq<Tags>, ghost c: Polling.Setup, ghost connectionSize: nat,
    ghost maxTags: nat, ghost t0: nat, ghost rs: seq<Polling.Read>, ghost values: Values, ghost i: nat, ghost j: nat)
    requires stream.Valid() && stream.running && stream.seen == [] && Named(stream.trends, chunks)
    requires Carried(c, chunks, NumbersOf(stream.trends), i, j) && Polling.Configured(c, connectionSize, maxTags)
    requires |chunks| * READ_TIME_US + 13000 <= FillTime(c.rate, connectionSize, maxTags)
    requires |rs| == |hosts| * |chunks| && Polling.Paced(rs, READ_TIME_US)
    requires forall k | 0 <= k < |hosts| :: hosts[k] >= 0.0
    requires AnswersSampled(stream.conn.verdicts, stream.conn.clock, c, t0, rs, NumbersOf(stream.trends), values)
    requires var lo := Polling.Ticks(c, i, t0); Countable(c, i, lo, lo + Reached(c, t0, rs, i))
    modifies stream`running, stream`trendTime, stream`numeric, stream`seen, stream.conn
    ensures stream.Valid() && stream.running
    ensures PlotsAll(SeriesOf(stream.Plot(), chunks[i][j].0), c, i, j, chunks[i][j].1, values,
                     Polling.Ticks(c, i, t0), Reached(c, t0, rs, i),
                     FirstHost(Windows(c, t0, rs, i, CycleHost(hosts, |chunks|))))
  {
    hide Layered, Named, FillTime, Polling.LongestGap, Polling.Configured, Polling.Run, Reached, Countable, PlotsAll;
    hide Windows, Reply, Replies, Polled, RunPolls, AllAnswered, NumbersOf, IngestAll, CycleHost, RepliesToAll;
    hide RepliesFrom, AnsweredBy, AnswersSampled, InSequence, DistinctNames, Names, Polling.Ticks, Answers;
    ghost var numbers, clock, verdicts := NumbersOf(stream.trends), stream.conn.clock, stream.conn.verdicts;
    ghost var answers := Answers(clock, c, t0, rs, numbers, values);
    AnswersAre(clock, c, t0, rs, numbers, values, verdicts);
    AllReply(verdicts, answers, clock, |chunks|, hosts);
    Stream(stream, hosts, chunks, numbers, answers);
    RunIsPolled(c, t0, rs, chunks, numbers, values, hosts, answers, clock, 0);
    NothingPolledYet(c, t0, rs, chunks, numbers, values, CycleHost(hosts, |chunks|));
    ghost var polls := Polled(c, t0, rs, chunks, numbers, values, CycleHost(hosts, |chunks|));
    assert polls == RunPolls(chunks, numbers, answers, clock, hosts) by { assert hosts[0..] == hosts; }
    assert stream.seen == AllAnswered(polls);
    HostsArePositive(hosts, |chunks|);
    Polling.GapFits(c, connectionSize, maxTags);
    WholeStream(c, connectionSize, maxTags, READ_TIME_US, t0, rs, chunks, numbers, values, CycleHost(hosts, |chunks|),
                i, j);
  }

  lemma {:induction false} NothingPolledYet(
    c: Polling.Setup, t0: nat, rs: seq<Polling.Read>, chunks: seq<Tags>, numbers: seq<seq<uint16>>, values: Values,
    host: nat -> real)
    requires Polling.Valid(c) && |chunks| == |numbers| == |c.tags|
    ensures Polled(c, t0, rs[..0], chunks, numbers, values, host) == []
  {
  }

  lemma {:induction false} HostsArePositive(hosts: seq<real>, n: nat)
    requires forall k | 0 <= k < |hosts| :: hosts[k] >= 0.0
    ensures forall k: nat :: CycleHost(hosts, n)(k) >= 0.0
  {
  }

  // ---- a session ----

  ghost predicate AllInSequence(chunks: seq<Tags>, numbers: seq<seq<uint16>>) {
    |chunks| == |numbers| && forall k | 0 <= k < |chunks| :: |chunks[k]| == |numbers[k]| && InSequence(numbers[k])
  }

  lemma {:induction false} CycleAttributed(
    chunks: seq<Tags>, numbers: seq<seq<uint16>>, answers: nat -> seq<Record>, clock: nat, host: real)
    requires AllInSequence(chunks, numbers)
    ensures Attributed(CyclePolls(chunks, numbers, answers, clock, host))
    decreases |chunks|
  {
    hide AttributesCorrectly;
    if chunks != [] {
      var n := |chunks| - 1;
      CycleAttributed(chunks[..n], numbers[..n], answers, clock, host);
      AttributionExactlyWhen(numbers[n], TypesOf(chunks[n]));
    }
  }

  lemma {:induction false} SessionAttributed(
    chunks: seq<Tags>, numbers: seq<seq<uint16>>, answers: nat -> seq<Record>, clock: nat, hosts: seq<real>)
    requires AllInSequence(chunks, numbers)
    ensures Attributed(RunPolls(chunks, numbers, answers, clock, hosts))
    decreases |hosts|
  {
    hide AttributesCorrectly, CyclePolls, AllInSequence;
    if hosts != [] {
      CycleAttributed(chunks, numbers, answers, clock, hosts[0]);
      SessionAttributed(chunks, numbers, answers, clock + |chunks|, hosts[1..]);
    }
  }

  // What a start sets up on an orderly PLC is attributed correctly, in any run.
  lemma {:induction false} NumberedInSequence(ts: seq<TrendInstance>, chunks: seq<Tags>)
    requires Named(ts, chunks) && AllNumbered(ts)
    ensures AllInSequence(chunks, NumbersOf(ts))
  {
    NamedLength(ts, chunks);
  }

  // One tag, and reads that return the same record over and over again.
  const ONE: Tags := [([65], 0xC4)]
  const AGAIN: Record := Record(1, 7, [5, 0, 0, 0])

  lemma {:induction false} OneTag(rateUs: nat, connectionSize: nat)
    ensures BalancedChunks(ONE, rateUs, connectionSize) == [ONE]
  {
    hide BalancedChunks, PerInstance;
    var chunks := BalancedChunks(ONE, rateUs, connectionSize);
    BalancedShape(ONE, rateUs, connectionSize);
    if |chunks| > 1 {
      assert false;
    }
    OneChunk(chunks);
    assert chunks == [chunks[0]];
  }

  // Such a run exists: the tag sampled every 10 ms over the smaller connection. The second read comes
  // after 200 ms and delivers 20 samples.
  lemma {:induction false} TwoReads() returns (c: Polling.Setup, rs: seq<Polling.Read>)
    ensures Polling.Configured(c, 504, 1) && Polling.Paced(rs, READ_TIME_US)
    ensures Polling.LongestGap(c, READ_TIME_US) <= FillTime(c.rate, 504, 1)
    ensures Carried(c, [ONE], [[1]], 0, 0) && Reached(c, 0, rs, 0) == 20
    ensures Countable(c, 0, Polling.Ticks(c, 0, 0), Polling.Ticks(c, 0, 0) + 20)
  {
    hide Polling.Step;
    c, rs := Polling.Setup(10000, 48, [1], 200000, [0]), [Polling.Read(0, 0), Polling.Read(0, 0)];
    assert FillTime(10000, 504, 1) == 480000 && PollInterval(480000, 1) == 200 && MaxEntries(504) == 48;
    assert c.tags[0] == 1 && [ONE][0] == ONE && [[1]][0] == [1];
    assert rs[..1] == [rs[0]] && rs[..1][..0] == [];
    assert Polling.Run(c, 0, []) == Polling.Start(c, 0);
    Polling.StepMoves(c, Polling.Start(c, 0), rs[0]);
    assert Polling.Run(c, 0, rs[..1]) == Polling.Step(c, Polling.Start(c, 0), rs[0]);
    Polling.StepMoves(c, Polling.Run(c, 0, rs[..1]), rs[1]);
  }

  lemma {:induction false} PolledTwice(clock: nat, a: real, b: real)
    ensures RunPolls([ONE], [[1]], _ => [AGAIN], clock, [a, b])
         == [Poll(ONE, [1], [AGAIN], a), Poll(ONE, [1], [AGAIN], b)]
  {
    var answers: nat -> seq<Record> := _ => [AGAIN];
    CycleOfOne(answers, clock, a);
    CycleOfOne(answers, clock + 1, b);
    assert [a, b][1..] == [b] && [b][1..] == [];
    assert RunPolls([ONE], [[1]], answers, clock + 2, []) == [];
    assert RunPolls([ONE], [[1]], answers, clock + 1, [b]) == [Poll(ONE, [1], [AGAIN], b)];
  }

  lemma {:induction false} CycleOfOne(answers: nat -> seq<Record>, clock: nat, host: real)
    ensures CyclePolls([ONE], [[1]], answers, clock, host) == [Poll(ONE, [1], answers(clock), host)]
  {
    NoCyclePolls([ONE][..0], [[1]][..0], answers, clock, host);
  }

  lemma {:induction false} BothMatch(a: real, b: real)
    requires a >= 0.0 && b >= 0.0
    ensures var t, ws := Truth([7], [Exact(5)]), [Window(0, 1, a), Window(0, 1, b)];
            && ValidTruth(t) && InOrder(t, ws) && High(ws) == 1 && FirstHost(ws) == a
            && Match([Poll(ONE, [1], [AGAIN], a), Poll(ONE, [1], [AGAIN], b)], [65], t, ws)
  {
    hide InOrder, Match, High, Carries;
    var t, w, v := Truth([7], [Exact(5)]), Window(0, 1, a), Window(0, 1, b);
    var p, q := Poll(ONE, [1], [AGAIN], a), Poll(ONE, [1], [AGAIN], b);
    CarriesAgain(a);
    CarriesAgain(b);
    NothingMatched(t, [65]);
    MatchMine([], p, 0, t, [], w);
    assert [] + [w] == [w] && [] + [p] == [p];
    MatchMine([p], q, 0, t, [w], v);
    assert [w] + [v] == [w, v] && [p] + [q] == [p, q];
    assert [w, v][..1] == [w] && [w][..0] == [];
  }

  lemma {:induction false} CarriesAgain(host: real)
    ensures Carries(Poll(ONE, [1], [AGAIN], host), 0, Truth([7], [Exact(5)]), Window(0, 1, host))
  {
    assert [AGAIN][..0] == [];
  }

  lemma {:induction false} NumberOne(ts: seq<TrendInstance>)
    requires Named(ts, [ONE]) && AllNumbered(ts)
    ensures NumbersOf(ts) == [[1]]
  {
    NamedLength(ts, [ONE]);
    assert |ts[0].Names()| == 1 && NumberedUpTo(ts[0].tags, |ts[0].tags|);
    assert NumbersOf(ts)[0] == [1];
  }

  // Such a session exists: an orderly PLC, one tag, and two reads that return the same record. It is
  // attributed to the tag, and plotted once.
  method PlottedOnce() returns (link: Link, stream: DataStream, o: StartOutcome)
    ensures o.Streaming? && stream.running && stream.Valid() && stream.conn == link
    ensures SeriesOf(stream.Plot(), [65]) == [Point(0.0, Exact(5))]
  {
    hide Layered, Named, AllSetUp, BalancedChunks, Sleep, BufferSize, AllNameable, CarriesOut;
    hide Match, InOrder, ValidTruth, RunPolls, RepliesToAll, Attributed, Link.Traced, AllNumbered, AllInSequence;
    hide NumbersOf, High, FirstHost, IngestAll;
    link := new Link(map[], _ => Obey(0, EncodeRecords([AGAIN])), Willing);
    IsOrderly(link);
    stream := new DataStream();
    PlainNameIsNameable(ONE);
    o := stream.Start(link, true, 4002, 10000, ONE);
    OneTag(10000, 4002);
    NumberedInSequence(stream.trends, [ONE]);
    ghost var answers: nat -> seq<Record> := _ => [AGAIN];
    AllReply(link.verdicts, answers, link.clock, 1, [0.0, 1.0]);
    PolledTwice(link.clock, 0.0, 1.0);
    BothMatch(0.0, 1.0);
    NumberOne(stream.trends);
    SessionAttributed([ONE], [[1]], answers, link.clock, [0.0, 1.0]);
    StreamExactlyOnce(stream, [0.0, 1.0], [ONE], answers, [65], Truth([7], [Exact(5)]),
                      [Window(0, 1, 0.0), Window(0, 1, 1.0)]);
  }
}
