// From PLC tick counters to time series: anchoring, unwrapping of the 32-bit counter and the filter
// that drops what was already seen. Times are exact reals.
module TimeSeries {
  import opened Bytes

  const TICK: real := 0.000128      // 128 us per tick
  const WRAP: nat := 0x1_0000_0000

  // An integer value, or the bits of a single-precision float.
  datatype Value = Exact(n: int) | Single(bits: uint32)

  datatype Point = Point(time: real, value: Value)

  // Per-tag state: the PLC and host times of the first sample, and the last time emitted.
  datatype TimeState = TimeState(initialized: bool, basePlcTs: uint32, baseHost: real, last: real)

  const FRESH: TimeState := TimeState(false, 0, 0.0, -1.0)

  // A sample of one tag, with the host time of the poll that delivered it.
  datatype Obs = Obs(ts: uint32, value: Value, host: real)

  // Ticks since the base, as the code computes them in its two branches.
  function Delta(base: uint32, ts: uint32): uint32 {
    if ts >= base then ts - base else (0xFFFF_FFFF - base) as int + ts + 1
  }

  // Both branches are subtraction modulo 2^32.
  lemma {:induction false} DeltaIsModular(base: uint32, ts: uint32)
    ensures Delta(base, ts) == (ts as int - base) % WRAP
  {
  }

  function At(baseHost: real, delta: nat): real { baseHost + (delta as real) * TICK }

  // A tick is 128 microseconds.
  lemma {:induction false} TimeInMicroseconds(baseHost: real, delta: nat)
    ensures At(baseHost, delta) == baseHost + (delta * 128) as real / 1000000.0
  {
  }

  lemma {:induction false} AtMono(baseHost: real, a: nat, b: nat)
    ensures At(baseHost, a) < At(baseHost, b) <==> a < b
    ensures At(baseHost, 0) == baseHost && baseHost <= At(baseHost, a)
  {
  }

  function Anchored(st: TimeState, o: Obs): TimeState {
    if st.initialized then st else TimeState(true, o.ts, o.host, st.last)
  }

  // One sample: the new state, and the point emitted, if any.
  function Observe(st: TimeState, o: Obs): (TimeState, seq<Point>) {
    var a := Anchored(st, o);
    var time := At(a.baseHost, Delta(a.basePlcTs, o.ts));
    if time > a.last then (a.(last := time), [Point(time, o.value)]) else (a, [])
  }

  // An emitted point lies as many ticks of 128 us after the tag's first sample as the counter has
  // advanced since, modulo 2^32, on the time axis of the host.
  lemma {:induction false} ObserveInMicroseconds(st: TimeState, o: Obs)
    ensures var (next, points) := Observe(st, o);
            && next.initialized && (st.initialized ==> next.basePlcTs == st.basePlcTs && next.baseHost == st.baseHost)
            && (!st.initialized ==> next.basePlcTs == o.ts && next.baseHost == o.host)
            && (points != [] ==>
                 points == [Point(next.baseHost + ((o.ts as int - next.basePlcTs) % WRAP * 128) as real / 1000000.0,
                                  o.value)])
  {
    hide Delta;
    DeltaIsModular(Anchored(st, o).basePlcTs, o.ts);
    TimeInMicroseconds(Anchored(st, o).baseHost, Delta(Anchored(st, o).basePlcTs, o.ts));
  }

  // All samples of one tag since the session began.
  function Feed(obs: seq<Obs>): (TimeState, seq<Point>) {
    if obs == [] then (FRESH, [])
    else
      var (st, points) := Feed(obs[..|obs| - 1]);
      var (st', more) := Observe(st, obs[|obs| - 1]);
      (st', points + more)
  }

  // ---- accepted samples are the strict running maxima ----

  function Offset(obs: seq<Obs>, i: nat): uint32
    requires i < |obs|
  {
    Delta(obs[0].ts, obs[i].ts)
  }

  predicate IsRecord(obs: seq<Obs>, i: nat)
    requires i < |obs|
  {
    forall j | 0 <= j < i :: Offset(obs, j) < Offset(obs, i)
  }

  // The offsets and values of the samples later than all before them.
  function Records(obs: seq<Obs>): seq<(nat, Value)> {
    if obs == [] then []
    else
      var n := |obs| - 1;
      Records(obs[..n]) + (if IsRecord(obs, n) then [(Offset(obs, n) as int, obs[n].value)] else [])
  }

  function Points(baseHost: real, records: seq<(nat, Value)>): (ps: seq<Point>)
    ensures |ps| == |records|
    ensures forall k | 0 <= k < |ps| :: ps[k] == Point(At(baseHost, records[k].0), records[k].1)
  {
    if records == [] then []
    else
      var (delta, value) := records[|records| - 1];
      Points(baseHost, records[..|records| - 1]) + [Point(At(baseHost, delta), value)]
  }

  // The largest offset so far.
  function Peak(obs: seq<Obs>): (m: nat)
    requires obs != []
    ensures forall j | 0 <= j < |obs| :: Offset(obs, j) <= m
    ensures exists j | 0 <= j < |obs| :: Offset(obs, j) == m
    decreases |obs|
  {
    var n := |obs| - 1;
    if n == 0 then Offset(obs, 0)
    else
      var p := Peak(obs[..n]);
      assert forall j | 0 <= j < n :: Offset(obs[..n], j) == Offset(obs, j);
      if Offset(obs, n) > p then Offset(obs, n) else p
  }

  lemma {:induction false} RecordMeansAbovePeak(obs: seq<Obs>)
    requires |obs| > 1
    ensures var n := |obs| - 1; IsRecord(obs, n) <==> Offset(obs, n) > Peak(obs[..n])
    ensures var n := |obs| - 1; Peak(obs) == Max(Peak(obs[..n]), Offset(obs, n))
  {
    var n := |obs| - 1;
    assert forall j | 0 <= j < n :: Offset(obs[..n], j) == Offset(obs, j);
  }

  // On any input whatever, from a host clock that starts at or after zero, the series emitted is the
  // strict running maxima of the unwrapped counter, at their exact times.
  lemma {:induction false} SeriesIsRunningMaxima(obs: seq<Obs>)
    requires obs != [] && obs[0].host >= 0.0
    ensures Feed(obs).0 == TimeState(true, obs[0].ts, obs[0].host, At(obs[0].host, Peak(obs)))
    ensures Feed(obs).1 == Points(obs[0].host, Records(obs))
    decreases |obs|
  {
    var n := |obs| - 1;
    if n == 0 {
      FirstSample(obs);
    } else {
      hide Observe, Peak, Offset, IsRecord;
      SeriesIsRunningMaxima(obs[..n]);
      NextSample(obs);
    }
  }

  lemma {:induction false} FirstSample(obs: seq<Obs>)
    requires |obs| == 1 && obs[0].host >= 0.0
    ensures Feed(obs) == (TimeState(true, obs[0].ts, obs[0].host, At(obs[0].host, Peak(obs))),
                          Points(obs[0].host, Records(obs)))
  {
  }

  lemma FeedLast(obs: seq<Obs>)
    requires obs != []
    ensures var n := |obs| - 1;
            var (st, points) := Feed(obs[..n]);
            Feed(obs) == (Observe(st, obs[n]).0, points + Observe(st, obs[n]).1)
  {
    hide Observe;
  }

  lemma PointsSnoc(base: real, rs: seq<(nat, Value)>, r: (nat, Value))
    ensures Points(base, rs + [r]) == Points(base, rs) + [Point(At(base, r.0), r.1)]
  {
    hide At;
    assert (rs + [r])[..|rs|] == rs;
  }

  // A sample is emitted exactly when it is a record.
  lemma ObserveRecord(obs: seq<Obs>, st: TimeState)
    requires |obs| > 1
    requires st == TimeState(true, obs[0].ts, obs[0].host, At(obs[0].host, Peak(obs[..|obs| - 1])))
    ensures var n, base := |obs| - 1, obs[0].host;
            Observe(st, obs[n])
            == (st.(last := At(base, Peak(obs))),
                if IsRecord(obs, n) then [Point(At(base, Offset(obs, n)), obs[n].value)] else [])
  {
    hide IsRecord, At, Peak, Delta;
    RecordMeansAbovePeak(obs);
    AtMono(obs[0].host, Peak(obs[..|obs| - 1]), Offset(obs, |obs| - 1));
  }

  lemma {:induction false} NextSample(obs: seq<Obs>)
    requires |obs| > 1
    requires var before, base := obs[..|obs| - 1], obs[0].host;
             Feed(before) == (TimeState(true, obs[0].ts, base, At(base, Peak(before))), Points(base, Records(before)))
    ensures Feed(obs) == (TimeState(true, obs[0].ts, obs[0].host, At(obs[0].host, Peak(obs))),
                          Points(obs[0].host, Records(obs)))
  {
    hide Feed, Observe, IsRecord, At, Peak, Delta, Offset, Points;
    var n, base, before := |obs| - 1, obs[0].host, obs[..|obs| - 1];
    FeedLast(obs);
    ObserveRecord(obs, Feed(before).0);
    PointsSnoc(base, Records(before), (Offset(obs, n) as int, obs[n].value));
    assert Records(before) + [] == Records(before);
    assert Points(base, Records(before)) + [] == Points(base, Records(before));
  }

  // ---- consequences for every run ----

  ghost predicate Increasing(ps: seq<Point>) {
    forall i, j | 0 <= i < j < |ps| :: ps[i].time < ps[j].time
  }

  ghost predicate OffsetsIncrease(rs: seq<(nat, Value)>) {
    (forall i | 0 <= i < |rs| :: rs[i].0 < WRAP) && (forall i, j | 0 <= i < j < |rs| :: rs[i].0 < rs[j].0)
  }

  lemma {:induction false} RecordsIncrease(obs: seq<Obs>)
    ensures OffsetsIncrease(Records(obs))
    ensures obs != [] ==> forall i | 0 <= i < |Records(obs)| :: Records(obs)[i].0 <= Peak(obs)
    decreases |obs|
  {
    if |obs| > 1 {
      RecordsIncrease(obs[..|obs| - 1]);
      RecordMeansAbovePeak(obs);
    }
  }

  lemma {:induction false} IncreasingIsShort(rs: seq<(nat, Value)>, bound: nat)
    requires forall i, j | 0 <= i < j < |rs| :: rs[i].0 < rs[j].0
    requires forall i | 0 <= i < |rs| :: rs[i].0 < bound
    ensures |rs| <= bound
    decreases |rs|
  {
    if rs != [] {
      var n := |rs| - 1;
      IncreasingIsShort(rs[..n], rs[n].0);
    }
  }

  // Time never goes backwards or stands still in a series, and the wrap of the counter bounds its
  // length: after 2^32 points nothing can be added within a session.
  lemma {:induction false} SeriesIncreases(obs: seq<Obs>)
    requires obs != [] ==> obs[0].host >= 0.0
    ensures Increasing(Feed(obs).1)
    ensures |Feed(obs).1| <= WRAP
  {
    if obs != [] {
      SeriesIsRunningMaxima(obs);
      var base, rs := obs[0].host, Records(obs);
      RecordsIncrease(obs);
      IncreasingIsShort(rs, WRAP);
      forall i, j | 0 <= i < j < |rs| ensures Points(base, rs)[i].time < Points(base, rs)[j].time {
        AtMono(base, rs[i].0, rs[j].0);
      }
    }
  }

  // ---- many tags ----

  datatype Sample = Sample(tag: bytes, obs: Obs)

  // trend_time_ and the plot data, both keyed by tag name.
  datatype Axis = Axis(time: map<bytes, TimeState>, numeric: map<bytes, seq<Point>>)

  const EMPTY: Axis := Axis(map[], map[])

  function TimeOf(x: Axis, tag: bytes): TimeState { if tag in x.time then x.time[tag] else FRESH }

  function SeriesOf(x: Axis, tag: bytes): seq<Point> { if tag in x.numeric then x.numeric[tag] else [] }

  function Ingest(x: Axis, s: Sample): Axis {
    var (st, more) := Observe(TimeOf(x, s.tag), s.obs);
    Axis(x.time[s.tag := st], x.numeric[s.tag := SeriesOf(x, s.tag) + more])
  }

  function IngestAll(x: Axis, ss: seq<Sample>): Axis {
    if ss == [] then x else Ingest(IngestAll(x, ss[..|ss| - 1]), ss[|ss| - 1])
  }

  lemma {:induction false} IngestAppend(x: Axis, a: seq<Sample>, b: seq<Sample>)
    ensures IngestAll(x, a + b) == IngestAll(IngestAll(x, a), b)
    decreases |b|
  {
    hide Ingest;
    if b == [] {
      assert a + b == a;
    } else {
      assert (a + b)[..|a + b| - 1] == a + b[..|b| - 1];
      IngestAppend(x, a, b[..|b| - 1]);
    }
  }

  function Project(ss: seq<Sample>, tag: bytes): seq<Obs> {
    if ss == [] then []
    else Project(ss[..|ss| - 1], tag) + (if ss[|ss| - 1].tag == tag then [ss[|ss| - 1].obs] else [])
  }

  // Interleaving changes nothing: a tag's state and series are those of its own samples alone.
  lemma {:induction false} TagsAreIndependent(ss: seq<Sample>, tag: bytes)
    ensures TimeOf(IngestAll(EMPTY, ss), tag) == Feed(Project(ss, tag)).0
    ensures SeriesOf(IngestAll(EMPTY, ss), tag) == Feed(Project(ss, tag)).1
    decreases |ss|
  {
    hide Observe;
    if ss != [] {
      var n := |ss| - 1;
      TagsAreIndependent(ss[..n], tag);
      var mine := Project(ss[..n], tag);
      if ss[n].tag == tag {
        assert (mine + [ss[n].obs])[..|mine|] == mine;
      } else {
        assert Project(ss, tag) == mine;
      }
    }
  }

  // ---- exactly once ----

  // The samples a PLC really took of one tag: at unbounded tick counts, in order, over less than one
  // turn of the counter.
  datatype Truth = Truth(ticks: seq<nat>, values: seq<Value>)

  ghost predicate ValidTruth(t: Truth) {
    && |t.ticks| == |t.values|
    && (forall i, j | 0 <= i < j < |t.ticks| :: t.ticks[i] < t.ticks[j])
    && (t.ticks != [] ==> t.ticks[|t.ticks| - 1] - t.ticks[0] < WRAP)
  }

  // One read delivers samples from..to of the truth, with the counter cut to 32 bits.
  datatype Window = Window(from: nat, to: nat, host: real)

  function Wire(t: Truth, j: nat, host: real): Obs
    requires j < |t.ticks| == |t.values|
  {
    Obs(t.ticks[j] % WRAP, t.values[j], host)
  }

  function Delivered(t: Truth, w: Window): (os: seq<Obs>)
    requires |t.ticks| == |t.values| && w.from <= w.to <= |t.ticks|
    ensures |os| == w.to - w.from
    decreases w.to
  {
    if w.from == w.to then [] else Delivered(t, w.(to := w.to - 1)) + [Wire(t, w.to - 1, w.host)]
  }

  function High(ws: seq<Window>): nat {
    if ws == [] then 0 else Max(High(ws[..|ws| - 1]), ws[|ws| - 1].to)
  }

  // Every window starts no later than where the ones before it have got to.
  ghost predicate InOrder(t: Truth, ws: seq<Window>) {
    |t.ticks| == |t.values| &&
    (ws == [] ||
      (var w := ws[|ws| - 1];
       && InOrder(t, ws[..|ws| - 1])
       && w.from <= w.to <= |t.ticks| && w.from <= High(ws[..|ws| - 1]) && w.host >= 0.0))
  }

  ghost function AllDelivered(t: Truth, ws: seq<Window>): seq<Obs>
    requires InOrder(t, ws)
  {
    if ws == [] then [] else AllDelivered(t, ws[..|ws| - 1]) + Delivered(t, ws[|ws| - 1])
  }

  // The deduplicated truth with exact relative times.
  function TruePoints(t: Truth, baseHost: real, n: nat): (ps: seq<Point>)
    requires n <= |t.ticks| == |t.values|
    requires forall j | 0 <= j < n :: t.ticks[0] <= t.ticks[j]
    ensures |ps| == n
    ensures forall j | 0 <= j < n :: ps[j] == Point(At(baseHost, t.ticks[j] - t.ticks[0]), t.values[j])
  {
    if n == 0 then []
    else TruePoints(t, baseHost, n - 1) + [Point(At(baseHost, t.ticks[n - 1] - t.ticks[0]), t.values[n - 1])]
  }

  // Having seen the first n samples of the truth, with the first read at baseHost.
  ghost predicate Caught(t: Truth, f: (TimeState, seq<Point>), baseHost: real, n: nat)
    requires ValidTruth(t) && n <= |t.ticks|
  {
    if n == 0 then f == (FRESH, [])
    else
      && f.0 == TimeState(true, t.ticks[0] % WRAP, baseHost, At(baseHost, t.ticks[n - 1] - t.ticks[0]))
      && f.1 == TruePoints(t, baseHost, n)
  }

  lemma {:induction false} DeltaOfTruth(t: Truth, j: nat)
    requires ValidTruth(t) && j < |t.ticks|
    ensures t.ticks[0] <= t.ticks[j] && t.ticks[j] - t.ticks[0] < WRAP
    ensures Delta(t.ticks[0] % WRAP, t.ticks[j] % WRAP) == t.ticks[j] - t.ticks[0]
  {
  }

  // The next sample is emitted, an old one is dropped.
  lemma {:induction false} CatchOne(t: Truth, f: (TimeState, seq<Point>), baseHost: real, n: nat, j: nat, host: real)
    requires ValidTruth(t) && n <= |t.ticks| && j <= n && j < |t.ticks|
    requires Caught(t, f, baseHost, n) && host >= 0.0
    ensures var o := Observe(f.0, Wire(t, j, host));
            Caught(t, (o.0, f.1 + o.1), if n == 0 then host else baseHost, if j == n then n + 1 else n)
  {
    DeltaOfTruth(t, j);
    DeltaOfTruth(t, 0);
    if n == 0 {
      AtMono(host, 0, 0);
    } else {
      AtMono(baseHost, t.ticks[n - 1] - t.ticks[0], t.ticks[j] - t.ticks[0]);
    }
  }

  lemma {:induction false} FeedSnoc(obs: seq<Obs>, o: Obs)
    ensures Feed(obs + [o]) == (Observe(Feed(obs).0, o).0, Feed(obs).1 + Observe(Feed(obs).0, o).1)
  {
  }

  lemma {:induction false} CatchWindow(t: Truth, obs: seq<Obs>, baseHost: real, n: nat, w: Window)
    requires ValidTruth(t) && n <= |t.ticks| && Caught(t, Feed(obs), baseHost, n)
    requires w.from <= w.to <= |t.ticks| && w.from <= n && w.host >= 0.0
    ensures Caught(t, Feed(obs + Delivered(t, w)), if n == 0 then w.host else baseHost, Max(n, w.to))
    decreases w.to
  {
    hide Caught, Observe, Feed;
    if w.from == w.to {
      assert obs + Delivered(t, w) == obs;
      StillFresh(t, Feed(obs), baseHost, w.host, n);
    } else {
      var w' := w.(to := w.to - 1);
      CatchWindow(t, obs, baseHost, n, w');
      var sofar := obs + Delivered(t, w');
      var base := if n == 0 then w.host else baseHost;
      CatchOne(t, Feed(sofar), base, Max(n, w'.to), w.to - 1, w.host);
      FeedSnoc(sofar, Wire(t, w.to - 1, w.host));
      assert obs + Delivered(t, w) == sofar + [Wire(t, w.to - 1, w.host)];
    }
  }

  lemma {:induction false} StillFresh(t: Truth, f: (TimeState, seq<Point>), a: real, b: real, n: nat)
    requires ValidTruth(t) && n <= |t.ticks| && Caught(t, f, a, n)
    ensures Caught(t, f, if n == 0 then b else a, n)
  {
  }

  // The host time of the first window that delivers anything.
  function FirstHost(ws: seq<Window>): real {
    if ws == [] then 0.0
    else if High(ws[..|ws| - 1]) == 0 then ws[|ws| - 1].host
    else FirstHost(ws[..|ws| - 1])
  }

  lemma {:induction false} HighIsInside(t: Truth, ws: seq<Window>)
    requires InOrder(t, ws)
    ensures High(ws) <= |t.ticks|
    decreases |ws|
  {
    if ws != [] { HighIsInside(t, ws[..|ws| - 1]); }
  }

  lemma {:induction false} CatchWindows(t: Truth, ws: seq<Window>)
    requires ValidTruth(t) && InOrder(t, ws)
    ensures High(ws) <= |t.ticks| && Caught(t, Feed(AllDelivered(t, ws)), FirstHost(ws), High(ws))
    decreases |ws|
  {
    hide Caught, Feed;
    HighIsInside(t, ws);
    if ws == [] {
      NothingCaught(t);
    } else {
      var before := ws[..|ws| - 1];
      CatchWindows(t, before);
      CatchWindow(t, AllDelivered(t, before), FirstHost(before), High(before), ws[|ws| - 1]);
    }
  }

  lemma {:induction false} NothingCaught(t: Truth)
    requires ValidTruth(t)
    ensures Caught(t, Feed([]), 0.0, 0)
  {
  }

  // However the reads overlap, the series is the true sample stream without repetition, up to the
  // furthest sample any read has delivered.
  lemma {:induction false} ExactlyOnce(t: Truth, ws: seq<Window>)
    requires ValidTruth(t) && InOrder(t, ws)
    ensures High(ws) <= |t.ticks|
    ensures forall j | 0 <= j < High(ws) :: t.ticks[0] <= t.ticks[j]
    ensures Feed(AllDelivered(t, ws)).1 == TruePoints(t, FirstHost(ws), High(ws))
  {
    CatchWindows(t, ws);
    forall j | 0 <= j < |t.ticks| ensures t.ticks[0] <= t.ticks[j] { DeltaOfTruth(t, j); }
  }

  // The same with other tags' samples arriving in between.
  lemma {:induction false} ExactlyOnceInterleaved(t: Truth, ws: seq<Window>, ss: seq<Sample>, tag: bytes)
    requires ValidTruth(t) && InOrder(t, ws) && Project(ss, tag) == AllDelivered(t, ws)
    ensures High(ws) <= |t.ticks| && forall j | 0 <= j < High(ws) :: t.ticks[0] <= t.ticks[j]
    ensures SeriesOf(IngestAll(EMPTY, ss), tag) == TruePoints(t, FirstHost(ws), High(ws))
  {
    ExactlyOnce(t, ws);
    TagsAreIndependent(ss, tag);
  }
}
