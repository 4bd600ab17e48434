// Polling as a run of a state machine: trend instances on the PLC fill their buffers at the sample
// rate while the client reads them one after the other and sleeps at the end of every cycle.
// Times are in microseconds.
module PollSchedule {
  import opened Bytes
  import opened Sizing

  // The instances' tag counts and sampling phases, the buffer capacity in records and the sleep.
  datatype Setup = Setup(rate: nat, entries: nat, tags: seq<nat>, sleep: nat, phase: seq<nat>)

  // A phase is the first sampling instant there is, so every trend is sampling before polling begins.
  ghost predicate Valid(c: Setup) {
    && c.rate > 0 && 0 < |c.tags| == |c.phase|
    && forall i | 0 <= i < |c.tags| :: c.tags[i] > 0 && c.phase[i] < c.rate
  }

  // `since` remembers when each buffer was last drained. `lost` says that some record had no room.
  datatype State = State(now: nat, turn: nat, since: seq<nat>, held: seq<nat>, lost: bool)

  ghost predicate Shaped(c: Setup, s: State) {
    && |s.since| == |s.held| == |c.tags| && s.turn < |c.tags|
    && forall i | 0 <= i < |c.tags| :: s.since[i] <= s.now
  }

  // Sampling instants of instance i up to and including time t.
  function Ticks(c: Setup, i: nat, t: nat): nat
    requires c.rate > 0 && i < |c.phase|
  {
    if t < c.phase[i] then 0 else (t - c.phase[i]) / c.rate + 1
  }

  // Each sampling instant adds one record per tag.
  function Arriving(c: Setup, i: nat, from: nat, to: nat): nat
    requires c.rate > 0 && i < |c.phase| == |c.tags| && from <= to
  {
    TicksMono(c, i, from, to);
    (Ticks(c, i, to) - Ticks(c, i, from)) * c.tags[i]
  }

  lemma TicksMono(c: Setup, i: nat, from: nat, to: nat)
    requires c.rate > 0 && i < |c.phase| && from <= to
    ensures Ticks(c, i, from) <= Ticks(c, i, to)
  {
    if from >= c.phase[i] { DivMono(from - c.phase[i], to - c.phase[i], c.rate); }
  }

  // Time passes; a record that finds its buffer full is lost.
  ghost function Pass(c: Setup, s: State, dt: nat): (t: State)
    requires Valid(c) && Shaped(c, s)
    ensures Shaped(c, t)
  {
    var later := s.now + dt;
    s.(now := later,
       held := seq(|c.tags|, i requires 0 <= i < |c.tags| => Min(c.entries, s.held[i] + Arriving(c, i, s.now, later))),
       lost := s.lost || exists i | 0 <= i < |c.tags| :: s.held[i] + Arriving(c, i, s.now, later) > c.entries)
  }

  // One read: the PLC drains the buffer `before` microseconds after the client has started, and the
  // answer is in `after` that.
  datatype Read = Read(before: nat, after: nat)

  ghost function Drain(c: Setup, s: State): (t: State)
    requires Valid(c) && Shaped(c, s)
    ensures Shaped(c, t)
  {
    s.(since := s.since[s.turn := s.now], held := s.held[s.turn := 0])
  }

  // A read, and after the last instance of a cycle the sleep.
  ghost function Step(c: Setup, s: State, r: Read): State
    requires Valid(c) && Shaped(c, s)
  {
    var last := s.turn == |c.tags| - 1;
    Pass(c, Drain(c, Pass(c, s, r.before)), r.after + if last then c.sleep else 0)
      .(turn := if last then 0 else s.turn + 1)
  }

  // Polling starts at t0 with drained buffers.
  function Start(c: Setup, t0: nat): State {
    State(t0, 0, seq(|c.tags|, _ => t0), seq(|c.tags|, _ => 0), false)
  }

  ghost function Run(c: Setup, t0: nat, rs: seq<Read>): (s: State)
    requires Valid(c)
    ensures Shaped(c, s)
  {
    if rs == [] then Start(c, t0) else Step(c, Run(c, t0, rs[..|rs| - 1]), rs[|rs| - 1])
  }

  // Every read takes at most 7 ms, and the PLC serves it within the first `delay` of them.
  ghost predicate Paced(rs: seq<Read>, delay: nat) {
    forall k | 0 <= k < |rs| :: rs[k].before <= delay && rs[k].before + rs[k].after <= READ_TIME_US
  }

  // ---- what a buffer holds ----

  // As long as nothing was lost, exactly what arrived since the last drain.
  ghost predicate Exact(c: Setup, s: State)
    requires Valid(c) && Shaped(c, s)
  {
    !s.lost ==> forall i | 0 <= i < |c.tags| ::
      s.held[i] == Arriving(c, i, s.since[i], s.now) && s.held[i] <= c.entries
  }

  lemma ArrivingAdds(c: Setup, i: nat, a: nat, b: nat, e: nat)
    requires c.rate > 0 && i < |c.phase| == |c.tags| && a <= b <= e
    ensures Arriving(c, i, a, b) + Arriving(c, i, b, e) == Arriving(c, i, a, e)
  {
  }

  lemma PassKeepsExact(c: Setup, s: State, dt: nat)
    requires Valid(c) && Shaped(c, s) && Exact(c, s)
    ensures Exact(c, Pass(c, s, dt))
  {
    hide Arriving;
    var t := Pass(c, s, dt);
    if !t.lost {
      forall i | 0 <= i < |c.tags| ensures t.held[i] == Arriving(c, i, t.since[i], t.now) && t.held[i] <= c.entries {
        ArrivingAdds(c, i, s.since[i], s.now, t.now);
      }
    }
  }

  lemma DrainKeepsExact(c: Setup, s: State)
    requires Valid(c) && Shaped(c, s) && Exact(c, s)
    ensures Exact(c, Drain(c, s))
  {
    hide Arriving;
    NothingArrives(c, s.turn, s.now);
  }

  lemma NothingArrives(c: Setup, i: nat, t: nat)
    requires c.rate > 0 && i < |c.phase| == |c.tags|
    ensures Arriving(c, i, t, t) == 0
  {
  }

  lemma {:induction false} RunIsExact(c: Setup, t0: nat, rs: seq<Read>)
    requires Valid(c)
    ensures Exact(c, Run(c, t0, rs))
  {
    hide Pass, Drain;
    if rs == [] {
      forall i | 0 <= i < |c.tags| ensures Arriving(c, i, t0, t0) == 0 { NothingArrives(c, i, t0); }
    } else {
      var s, r := Run(c, t0, rs[..|rs| - 1]), rs[|rs| - 1];
      RunIsExact(c, t0, rs[..|rs| - 1]);
      StepKeepsExact(c, s, r);
    }
  }

  lemma StepKeepsExact(c: Setup, s: State, r: Read)
    requires Valid(c) && Shaped(c, s) && Exact(c, s)
    ensures Exact(c, Step(c, s, r))
  {
    hide Arriving, Pass, Drain;
    PassKeepsExact(c, s, r.before);
    var waited := Pass(c, s, r.before);
    DrainKeepsExact(c, waited);
    PassKeepsExact(c, Drain(c, waited), r.after + if s.turn == |c.tags| - 1 then c.sleep else 0);
  }

  // ---- how old a drain can be ----

  // An instance already read in this cycle waits for the reads since; one still to be read waits for
  // the rest of the previous cycle, the sleep, and the reads of this one.
  function Age(c: Setup, turn: nat, i: nat): int {
    if i < turn then READ_TIME_US * (turn - i)
    else READ_TIME_US * (|c.tags| - i + turn) + c.sleep
  }

  ghost predicate Timely(c: Setup, s: State)
    requires Valid(c) && Shaped(c, s)
  {
    forall i | 0 <= i < |c.tags| :: s.now - s.since[i] <= Age(c, s.turn, i)
  }

  lemma StepMoves(c: Setup, s: State, r: Read)
    requires Valid(c) && Shaped(c, s)
    ensures var t, last := Step(c, s, r), s.turn == |c.tags| - 1;
            && t.turn == (if last then 0 else s.turn + 1)
            && t.now == s.now + r.before + r.after + (if last then c.sleep else 0)
            && t.since == s.since[s.turn := s.now + r.before]
  {
    hide Arriving;
  }

  lemma StepKeepsTimely(c: Setup, s: State, r: Read)
    requires Valid(c) && Shaped(c, s) && Timely(c, s) && r.before + r.after <= READ_TIME_US
    ensures Timely(c, Step(c, s, r))
  {
    hide Step;
    StepMoves(c, s, r);
    var t := Step(c, s, r);
    forall i | 0 <= i < |c.tags| ensures t.now - t.since[i] <= Age(c, t.turn, i) {
      assert s.now - s.since[i] <= Age(c, s.turn, i);
    }
  }

  lemma {:induction false} RunIsTimely(c: Setup, t0: nat, rs: seq<Read>)
    requires Valid(c) && Paced(rs, READ_TIME_US)
    ensures Timely(c, Run(c, t0, rs))
  {
    hide Step;
    if rs != [] {
      RunIsTimely(c, t0, rs[..|rs| - 1]);
      StepKeepsTimely(c, Run(c, t0, rs[..|rs| - 1]), rs[|rs| - 1]);
    }
  }

  // ---- no overflow ----

  // In a half-open interval no longer than `periods` sample periods there are at most `periods`
  // sampling instants, whatever the phase.
  lemma InstantsInInterval(c: Setup, i: nat, a: nat, b: nat, periods: nat)
    requires c.rate > 0 && i < |c.phase| && a <= b && b - a <= periods * c.rate
    ensures Ticks(c, i, b) - Ticks(c, i, a) <= periods
  {
    var p, r := c.phase[i], c.rate;
    if a >= p {
      DivBounds(a - p, r);
      assert ((a - p) / r + periods + 1) * r == r * ((a - p) / r) + periods * r + r;
      DivAtMost(b - p, r, (a - p) / r + periods);
    } else if b >= p {
      assert periods == 0 ==> b == a;
      DivAtMost(b - p, r, periods - 1);
    }
  }

  // The setup a start leaves behind: every instance has the capacity of the connection, and the
  // sleep is computed from the tightest one.
  ghost predicate Configured(c: Setup, connectionSize: nat, maxTagsInAny: nat) {
    && Valid(c) && maxTagsInAny > 0
    && c.entries == MaxEntries(connectionSize)
    && c.sleep == 1000 * PollInterval(FillTime(c.rate, connectionSize, maxTagsInAny), |c.tags|)
    && (forall i | 0 <= i < |c.tags| :: c.tags[i] <= maxTagsInAny)
    && (exists i | 0 <= i < |c.tags| :: c.tags[i] == maxTagsInAny)
  }

  ghost predicate Lossless(s: State, entries: nat) {
    !s.lost && forall i | 0 <= i < |s.held| :: s.held[i] <= entries
  }

  lemma ArrivingFits(c: Setup, i: nat, a: nat, b: nat, periods: nat, maxTags: nat)
    requires c.rate > 0 && i < |c.phase| == |c.tags| && a <= b && b - a <= periods * c.rate
    requires c.tags[i] <= maxTags && periods * maxTags <= c.entries
    ensures Arriving(c, i, a, b) <= c.entries
  {
    TicksMono(c, i, a, b);
    InstantsInInterval(c, i, a, b, periods);
    var k := Ticks(c, i, b) - Ticks(c, i, a);
    MulMono(k, periods, c.tags[i]);
    MulMono(c.tags[i], maxTags, periods);
  }

  // A stretch of time in which everything fits loses nothing.
  lemma PassIsLossless(c: Setup, s: State, dt: nat, periods: nat, maxTags: nat)
    requires Valid(c) && Shaped(c, s) && Exact(c, s) && !s.lost
    requires forall i | 0 <= i < |c.tags| :: c.tags[i] <= maxTags && s.now + dt - s.since[i] <= periods * c.rate
    requires periods * maxTags <= c.entries
    ensures !Pass(c, s, dt).lost
  {
    hide Arriving;
    forall i | 0 <= i < |c.tags| ensures s.held[i] + Arriving(c, i, s.now, s.now + dt) <= c.entries {
      ArrivingFits(c, i, s.since[i], s.now + dt, periods, maxTags);
      ArrivingAdds(c, i, s.since[i], s.now, s.now + dt);
    }
  }

  // The longest a buffer goes undrained: a cycle of reads, the sleep, and the delay of the next drain.
  function LongestGap(c: Setup, delay: nat): nat { |c.tags| * READ_TIME_US + delay + c.sleep }

  lemma AgeBound(c: Setup, turn: nat, i: nat)
    requires turn < |c.tags| && i < |c.tags|
    ensures Age(c, turn, i) <= LongestGap(c, 0)
  {
  }

  lemma StepIsLossless(c: Setup, s: State, r: Read, delay: nat, periods: nat, maxTags: nat)
    requires Valid(c) && Shaped(c, s) && Timely(c, s) && Exact(c, s) && !s.lost
    requires r.before <= delay && r.before + r.after <= READ_TIME_US
    requires forall i | 0 <= i < |c.tags| :: c.tags[i] <= maxTags
    requires periods * maxTags <= c.entries && LongestGap(c, delay) <= periods * c.rate
    ensures !Step(c, s, r).lost
  {
    var waited := Pass(c, s, r.before);
    var rest := r.after + if s.turn == |c.tags| - 1 then c.sleep else 0;
    StepKeepsTimely(c, s, r);
    var t := Step(c, s, r);
    forall i | 0 <= i < |c.tags|
      ensures s.now + r.before - s.since[i] <= periods * c.rate && t.now - t.since[i] <= periods * c.rate
    {
      assert s.now - s.since[i] <= Age(c, s.turn, i) && t.now - t.since[i] <= Age(c, t.turn, i);
      AgeBound(c, s.turn, i);
      AgeBound(c, t.turn, i);
    }
    PassIsLossless(c, s, r.before, periods, maxTags);
    PassKeepsExact(c, s, r.before);
    DrainKeepsExact(c, waited);
    PassIsLossless(c, Drain(c, waited), rest, periods, maxTags);
  }

  lemma {:induction false} RunIsLossless(c: Setup, t0: nat, rs: seq<Read>, delay: nat, periods: nat, maxTags: nat)
    requires Valid(c) && Paced(rs, delay) && delay <= READ_TIME_US
    requires forall i | 0 <= i < |c.tags| :: c.tags[i] <= maxTags
    requires periods * maxTags <= c.entries && LongestGap(c, delay) <= periods * c.rate
    ensures !Run(c, t0, rs).lost
  {
    hide Step, Exact, Timely, LongestGap;
    if rs != [] {
      var before := rs[..|rs| - 1];
      RunIsLossless(c, t0, before, delay, periods, maxTags);
      RunIsTimely(c, t0, before);
      RunIsExact(c, t0, before);
      StepIsLossless(c, Run(c, t0, before), rs[|rs| - 1], delay, periods, maxTags);
    }
  }

  // Over any unbounded run no buffer overflows and no record is lost, when the fill time covers the
  // longest gap between two drains.
  lemma NoOverflow(c: Setup, connectionSize: nat, maxTags: nat, delay: nat, t0: nat, rs: seq<Read>)
    requires Configured(c, connectionSize, maxTags) && Paced(rs, delay) && delay <= READ_TIME_US
    requires LongestGap(c, delay) <= FillTime(c.rate, connectionSize, maxTags)
    ensures Lossless(Run(c, t0, rs), c.entries)
  {
    hide Run;
    DivBounds(c.entries, maxTags);
    RunIsLossless(c, t0, rs, delay, c.entries / maxTags, maxTags);
    RunIsExact(c, t0, rs);
  }

  // ---- and no weaker condition will do ----

  // For one cycle every read is served at once and then takes its 7 ms; the last read is the second
  // one of its instance, and is served as late as it may be.
  function SlowReads(n: nat): (rs: seq<Read>)
    ensures |rs| == n && forall k | 0 <= k < n :: rs[k] == Read(0, READ_TIME_US)
  {
    seq(n, _ => Read(0, READ_TIME_US))
  }

  lemma {:induction false} SlowRun(c: Setup, i: nat, k: nat)
    requires Valid(c) && i < |c.tags| && k <= i + |c.tags|
    ensures var s := Run(c, 0, SlowReads(k));
            && s.turn == (if k < |c.tags| then k else k - |c.tags|)
            && s.now == k * READ_TIME_US + (if k < |c.tags| then 0 else c.sleep)
            && s.since[i] == (if k > i then i * READ_TIME_US else 0)
  {
    hide Step;
    if k > 0 {
      SlowRun(c, i, k - 1);
      StepMoves(c, Run(c, 0, SlowReads(k - 1)), Read(0, READ_TIME_US));
      assert SlowReads(k)[..k - 1] == SlowReads(k - 1);
    }
  }

  // With a suitable sampling phase, the tightest instance overflows in a gap longer than the fill time.
  lemma OverflowIsReachable(c: Setup, connectionSize: nat, maxTags: nat, delay: nat)
    returns (phase: seq<nat>, rs: seq<Read>)
    requires Configured(c, connectionSize, maxTags) && delay <= READ_TIME_US
    requires LongestGap(c, delay) > FillTime(c.rate, connectionSize, maxTags)
    ensures |phase| == |c.tags| && (forall i | 0 <= i < |phase| :: phase[i] < c.rate) && Paced(rs, delay)
    ensures Valid(c.(phase := phase)) && Run(c.(phase := phase), 0, rs).lost
  {
    hide Arriving, Ticks, Pass, Drain, Run;
    var i :| 0 <= i < |c.tags| && c.tags[i] == maxTags;
    var drain, n := i * READ_TIME_US, i + |c.tags|;
    phase := seq(|c.tags|, _ => (drain + 1) % c.rate);
    var c' := c.(phase := phase);
    var s, r := Run(c', 0, SlowReads(n)), Read(delay, 0);
    rs := SlowReads(n) + [r];
    assert rs[..n] == SlowReads(n);
    RunStep(c', SlowReads(n), r);
    SlowRun(c', i, n);
    RunIsExact(c', 0, SlowReads(n));
    var periods := c.entries / maxTags;
    DivBounds(c.entries, maxTags);
    assert s.since[i] == drain && s.now + delay == drain + LongestGap(c, delay);
    TooManyArrive(c', i, drain, s.now + delay, periods);
    LateDrainLoses(c', s, i, r);
  }

  lemma RunStep(c: Setup, rs: seq<Read>, r: Read)
    requires Valid(c)
    ensures Run(c, 0, rs + [r]) == Step(c, Run(c, 0, rs), r)
  {
    hide Step;
    assert (rs + [r])[..|rs|] == rs;
  }

  lemma LateDrainLoses(c: Setup, s: State, i: nat, r: Read)
    requires Valid(c) && Shaped(c, s) && Exact(c, s) && i < |c.tags|
    requires Arriving(c, i, s.since[i], s.now + r.before) > c.entries
    ensures Step(c, s, r).lost
  {
    hide Arriving;
    if !s.lost { ArrivingAdds(c, i, s.since[i], s.now, s.now + r.before); }
    assert Pass(c, s, r.before).lost;
  }

  // Sampling right after a drain leaves room for one instant more than the interval's length suggests.
  lemma TooManyArrive(c: Setup, i: nat, a: nat, b: nat, periods: nat)
    requires c.rate > 0 && i < |c.phase| == |c.tags| && c.phase[i] == (a + 1) % c.rate
    requires a + periods * c.rate < b && c.entries < c.tags[i] * periods + c.tags[i]
    ensures Arriving(c, i, a, b) > c.entries
  {
    var q := (a + 1) / c.rate;
    TicksBefore(c, i, a);
    assert (q + periods) * c.rate == c.rate * q + periods * c.rate;
    DivAtLeast(b - c.phase[i], c.rate, q + periods);
    var k := Ticks(c, i, b) - Ticks(c, i, a);
    MulMono(periods + 1, k, c.tags[i]);
    assert (periods + 1) * c.tags[i] == c.tags[i] * periods + c.tags[i];
  }

  // An instant right after `a` is number (a + 1) / rate.
  lemma TicksBefore(c: Setup, i: nat, a: nat)
    requires c.rate > 0 && i < |c.phase| && c.phase[i] == (a + 1) % c.rate
    ensures Ticks(c, i, a) == (a + 1) / c.rate && c.phase[i] + c.rate * ((a + 1) / c.rate) == a + 1
  {
    var q := (a + 1) / c.rate;
    if a >= c.phase[i] {
      assert a - c.phase[i] == c.rate * q - 1;
      assert (q - 1) * c.rate == c.rate * q - c.rate && (q - 1 + 1) * c.rate == c.rate * q;
      assert q >= 1;
      DivAtLeast(a - c.phase[i], c.rate, q - 1);
      DivAtMost(a - c.phase[i], c.rate, q - 1);
    } else {
      assert q == 0;
    }
  }

  ghost predicate NeverLoses(c: Setup, delay: nat) {
    forall phase: seq<nat>, t0: nat, rs: seq<Read> | Valid(c.(phase := phase)) && Paced(rs, delay) ::
      !Run(c.(phase := phase), t0, rs).lost
  }

  // Whatever the sampling phases and the pace of the reads, no run loses a record: this holds exactly
  // when the fill time covers the longest gap between two drains.
  lemma SafeExactlyWhen(c: Setup, connectionSize: nat, maxTags: nat, delay: nat)
    requires Configured(c, connectionSize, maxTags) && delay <= READ_TIME_US
    ensures NeverLoses(c, delay) <==> LongestGap(c, delay) <= FillTime(c.rate, connectionSize, maxTags)
  {
    hide Run, LongestGap, FillTime;
    if LongestGap(c, delay) <= FillTime(c.rate, connectionSize, maxTags) {
      forall phase: seq<nat>, t0: nat, rs: seq<Read> | Valid(c.(phase := phase)) && Paced(rs, delay)
        ensures !Run(c.(phase := phase), t0, rs).lost
      {
        assert LongestGap(c.(phase := phase), delay) == LongestGap(c, delay) by { SameGap(c, phase, delay); }
        NoOverflow(c.(phase := phase), connectionSize, maxTags, delay, t0, rs);
      }
    } else {
      var phase, rs := OverflowIsReachable(c, connectionSize, maxTags, delay);
    }
  }

  lemma SameGap(c: Setup, phase: seq<nat>, delay: nat)
    ensures LongestGap(c.(phase := phase), delay) == LongestGap(c, delay)
  {
  }

  // The gap in terms of the computed sleep: with the PLC serving every read at once the fill time has
  // to cover 7 ms per instance and 5 ms; with the drain anywhere in the read it takes 13 ms.
  lemma GapFits(c: Setup, connectionSize: nat, maxTags: nat)
    requires Configured(c, connectionSize, maxTags)
    ensures var fill := FillTime(c.rate, connectionSize, maxTags);
            && (LongestGap(c, 0) <= fill <==> |c.tags| * READ_TIME_US + 5000 <= fill)
            && (LongestGap(c, READ_TIME_US) <= fill <==> |c.tags| * READ_TIME_US + 13000 <= fill)
  {
    hide FillTime;
    CycleFits(FillTime(c.rate, connectionSize, maxTags), |c.tags|);
  }
}
