// The buffers of a polling run with the records in them: what sampling puts in, what has no room, and
// what each read takes out.
module RecordQueues {
  import opened Bytes
  import opened PollSchedule

  // One record: the number of its sampling instant, and the place of its tag in the instance.
  datatype Entry = Entry(instant: nat, tag: nat)

  // What the instants lo, lo + 1, ..., hi - 1 add: at each of them one record per tag, in order.
  function Sampled(lo: nat, hi: nat, tags: nat): (es: seq<Entry>)
    requires lo <= hi
    ensures |es| == (hi - lo) * tags
    decreases hi
  {
    if lo == hi then [] else Sampled(lo, hi - 1, tags) + Instant(hi - 1, tags)
  }

  function Instant(k: nat, tags: nat): (es: seq<Entry>)
    ensures |es| == tags
  {
    seq(tags, j requires 0 <= j < tags => Entry(k, j))
  }

  // Each record is kept if there is room for it.
  function Fill(entries: nat, held: seq<Entry>, more: seq<Entry>): (q: seq<Entry>)
    ensures |q| == Min(entries, |held| + |more|)
    ensures |held| + |more| <= entries ==> q == held + more
  {
    (held + more)[..Min(entries, |held| + |more|)]
  }

  function Arrivals(c: Setup, i: nat, from: nat, to: nat): (es: seq<Entry>)
    requires c.rate > 0 && i < |c.phase| == |c.tags| && from <= to
    ensures |es| == Arriving(c, i, from, to)
  {
    TicksMono(c, i, from, to);
    Sampled(Ticks(c, i, from), Ticks(c, i, to), c.tags[i])
  }

  type Buffers = seq<seq<Entry>>

  ghost function FillAll(c: Setup, b: Buffers, from: nat, to: nat): (filled: Buffers)
    requires Valid(c) && |b| == |c.tags| && from <= to
    ensures |filled| == |b|
    ensures forall i | 0 <= i < |b| :: filled[i] == Fill(c.entries, b[i], Arrivals(c, i, from, to))
  {
    seq(|c.tags|, i requires 0 <= i < |c.tags| => Fill(c.entries, b[i], Arrivals(c, i, from, to)))
  }

  // One read: the buffers at the moment it drains one of them, and afterwards.
  ghost function AtDrain(c: Setup, s: State, r: Read, b: Buffers): (waited: Buffers)
    requires Valid(c) && Shaped(c, s) && |b| == |c.tags|
    ensures |waited| == |b|
  {
    FillAll(c, b, s.now, s.now + r.before)
  }

  ghost function StepBuffers(c: Setup, s: State, r: Read, b: Buffers): (after: Buffers)
    requires Valid(c) && Shaped(c, s) && |b| == |c.tags|
    ensures |after| == |b|
  {
    StepMoves(c, s, r);
    FillAll(c, AtDrain(c, s, r, b)[s.turn := []], s.now + r.before, Step(c, s, r).now)
  }

  ghost function Buffered(c: Setup, t0: nat, rs: seq<Read>): (b: Buffers)
    requires Valid(c)
    ensures |b| == |c.tags|
  {
    if rs == [] then seq(|c.tags|, _ => [])
    else
      var n := |rs| - 1;
      StepBuffers(c, Run(c, t0, rs[..n]), rs[n], Buffered(c, t0, rs[..n]))
  }

  // What the last read takes out.
  ghost function Delivery(c: Setup, t0: nat, rs: seq<Read>): seq<Entry>
    requires Valid(c) && rs != []
  {
    var n := |rs| - 1;
    var s := Run(c, t0, rs[..n]);
    AtDrain(c, s, rs[n], Buffered(c, t0, rs[..n]))[s.turn]
  }

  ghost predicate Holds(c: Setup, s: State, b: Buffers)
    requires Valid(c) && Shaped(c, s) && |b| == |c.tags|
  {
    forall i | 0 <= i < |c.tags| :: |b[i]| == s.held[i]
  }

  // The schedule counts these very records.
  lemma {:induction false} RunCountsRecords(c: Setup, t0: nat, rs: seq<Read>)
    requires Valid(c)
    ensures Holds(c, Run(c, t0, rs), Buffered(c, t0, rs))
    decreases |rs|
  {
    if rs != [] {
      hide Step, StepBuffers, Holds;
      var n := |rs| - 1;
      RunCountsRecords(c, t0, rs[..n]);
      StepCountsRecords(c, Run(c, t0, rs[..n]), rs[n], Buffered(c, t0, rs[..n]));
    }
  }

  lemma {:induction false} StepCountsRecords(c: Setup, s: State, r: Read, b: Buffers)
    requires Valid(c) && Shaped(c, s) && |b| == |c.tags| && Holds(c, s, b)
    ensures Holds(c, Step(c, s, r), StepBuffers(c, s, r, b))
  {
    hide Arrivals, Arriving;
    StepMoves(c, s, r);
  }

  // ---- without loss, reads deliver everything, in order ----

  // What has been sampled since the last drain.
  ghost predicate Complete(c: Setup, s: State, b: Buffers)
    requires Valid(c) && Shaped(c, s) && |b| == |c.tags|
  {
    forall i | 0 <= i < |c.tags| :: b[i] == Arrivals(c, i, s.since[i], s.now)
  }

  lemma {:induction false} SampledJoin(lo: nat, mid: nat, hi: nat, tags: nat)
    requires lo <= mid <= hi
    ensures Sampled(lo, mid, tags) + Sampled(mid, hi, tags) == Sampled(lo, hi, tags)
    decreases hi
  {
    if mid == hi {
      assert Sampled(lo, mid, tags) + [] == Sampled(lo, mid, tags);
    } else {
      SampledJoin(lo, mid, hi - 1, tags);
      Regroup(Sampled(lo, mid, tags), Sampled(mid, hi - 1, tags), Instant(hi - 1, tags));
    }
  }

  // A stretch of time without loss.
  lemma {:induction false} FillsUp(c: Setup, i: nat, since: nat, from: nat, upto: nat, held: seq<Entry>)
    requires c.rate > 0 && i < |c.phase| == |c.tags| && since <= from <= upto
    requires held == Arrivals(c, i, since, from) && |held| + Arriving(c, i, from, upto) <= c.entries
    ensures Fill(c.entries, held, Arrivals(c, i, from, upto)) == Arrivals(c, i, since, upto)
  {
    hide Ticks, Fill;
    TicksMono(c, i, since, from);
    TicksMono(c, i, from, upto);
    SampledJoin(Ticks(c, i, since), Ticks(c, i, from), Ticks(c, i, upto), c.tags[i]);
  }

  lemma {:induction false} PassIsComplete(c: Setup, s: State, dt: nat, b: Buffers)
    requires Valid(c) && Shaped(c, s) && |b| == |c.tags| && Holds(c, s, b) && Complete(c, s, b)
    requires !Pass(c, s, dt).lost
    ensures Holds(c, Pass(c, s, dt), FillAll(c, b, s.now, s.now + dt))
    ensures Complete(c, Pass(c, s, dt), FillAll(c, b, s.now, s.now + dt))
  {
    hide Arrivals, Arriving, Fill;
    forall i | 0 <= i < |c.tags|
      ensures Fill(c.entries, b[i], Arrivals(c, i, s.now, s.now + dt)) == Arrivals(c, i, s.since[i], s.now + dt)
    {
      FillsUp(c, i, s.since[i], s.now, s.now + dt, b[i]);
    }
  }

  lemma {:induction false} DrainIsComplete(c: Setup, s: State, b: Buffers)
    requires Valid(c) && Shaped(c, s) && |b| == |c.tags| && Holds(c, s, b) && Complete(c, s, b)
    ensures Holds(c, Drain(c, s), b[s.turn := []]) && Complete(c, Drain(c, s), b[s.turn := []])
  {
    hide Arriving, Ticks;
    TicksMono(c, s.turn, s.now, s.now);
  }

  lemma {:induction false} StepIsComplete(c: Setup, s: State, r: Read, b: Buffers)
    requires Valid(c) && Shaped(c, s) && |b| == |c.tags| && Holds(c, s, b) && Complete(c, s, b)
    requires !Step(c, s, r).lost
    ensures Complete(c, Step(c, s, r), StepBuffers(c, s, r, b))
    ensures AtDrain(c, s, r, b)[s.turn] == Arrivals(c, s.turn, s.since[s.turn], s.now + r.before)
  {
    hide Arrivals, Arriving, FillAll, Holds;
    var waited, w := Pass(c, s, r.before), AtDrain(c, s, r, b);
    var drained, d := Drain(c, waited), w[s.turn := []];
    var rest := r.after + if s.turn == |c.tags| - 1 then c.sleep else 0;
    PassIsComplete(c, s, r.before, b);
    DrainIsComplete(c, waited, w);
    PassIsComplete(c, drained, rest, d);
    StepMoves(c, s, r);
  }

  // As long as no record is lost, each read takes out what its instance has sampled since the last one,
  // all of it and in order.
  lemma {:induction false} RunIsComplete(c: Setup, t0: nat, rs: seq<Read>)
    requires Valid(c) && !Run(c, t0, rs).lost
    ensures Complete(c, Run(c, t0, rs), Buffered(c, t0, rs))
    ensures rs != [] ==>
      var s, r := Run(c, t0, rs[..|rs| - 1]), rs[|rs| - 1];
      !s.lost && Delivery(c, t0, rs) == Arrivals(c, s.turn, s.since[s.turn], s.now + r.before)
    decreases |rs|
  {
    hide Step, StepBuffers, Holds, AtDrain, Arrivals;
    if rs == [] {
      forall i | 0 <= i < |c.tags| ensures Arrivals(c, i, t0, t0) == [] { NoArrivals(c, i, t0); }
    } else {
      var n := |rs| - 1;
      var s := Run(c, t0, rs[..n]);
      LossStays(c, s, rs[n]);
      RunIsComplete(c, t0, rs[..n]);
      RunCountsRecords(c, t0, rs[..n]);
      StepIsComplete(c, s, rs[n], Buffered(c, t0, rs[..n]));
    }
  }

  lemma {:induction false} NoArrivals(c: Setup, i: nat, t: nat)
    requires c.rate > 0 && i < |c.phase| == |c.tags|
    ensures Arrivals(c, i, t, t) == []
  {
  }

  lemma {:induction false} LossStays(c: Setup, s: State, r: Read)
    requires Valid(c) && Shaped(c, s)
    ensures s.lost ==> Step(c, s, r).lost
  {
    hide Arriving;
  }
}
