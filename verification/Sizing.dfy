// How many tags share a trend instance, how large its buffer is and how long to sleep between polls.
// Rates are in microseconds. The C++ computes fill times in double milliseconds; the same quantities
// are exact integers here.
module Sizing {
  import opened Bytes

  const RECORD_SIZE: nat := 10
  const MIN_FILL_MS: nat := 40       // the default of maxTagsPerInstance
  const READ_TIME_US: nat := 7000     // one CIP round trip per instance

  function MaxPayload(connectionSize: nat): nat {
    if connectionSize > 20 then connectionSize - 20 else 480
  }

  function MaxEntries(connectionSize: nat): nat { MaxPayload(connectionSize) / RECORD_SIZE }

  function Times(a: nat, b: nat): nat { a * b }

  function FloorDiv(a: nat, b: nat): nat
    requires b > 0
  {
    a / b
  }

  // The two caps: enough fill time, and at least four periods per read.
  function FillCap(rateUs: nat, connectionSize: nat, minFillMs: nat): nat
    requires minFillMs > 0
  {
    FloorDiv(Times(MaxEntries(connectionSize), rateUs), 1000 * minFillMs)
  }

  function PeriodCap(connectionSize: nat): nat { MaxEntries(connectionSize) / 4 }

  function MaxTagsPerInstance(rateUs: nat, connectionSize: nat, minFillMs: nat): (n: nat)
    requires minFillMs > 0
    ensures n >= 1
  {
    Max(1, Min(FillCap(rateUs, connectionSize, minFillMs), PeriodCap(connectionSize)))
  }

  function Clamp(ms: nat): nat { Max(5, Min(200, ms)) }

  // Buffer size in bytes, and a poll interval in milliseconds.
  function BufferParams(rateUs: nat, sampleSize: nat, numTags: nat, connectionSize: nat): (nat, nat)
    requires sampleSize > 0
  {
    var maxEntries := MaxPayload(connectionSize) / sampleSize;
    var nTags := if numTags > 0 then numTags else 1;
    var periods := maxEntries / nTags;
    (maxEntries * sampleSize, Clamp(periods * rateUs / 2000))
  }

  // ---- arithmetic helpers ----

  lemma DivBounds(a: nat, b: nat)
    requires b > 0
    ensures b * (a / b) <= a < b * (a / b) + b
    ensures a / b >= 0
  {
  }

  lemma DivAtLeast(a: nat, b: nat, q: nat)
    requires b > 0 && q * b <= a
    ensures a / b >= q
  {
    DivBounds(a, b);
    if a / b < q {
      MulMono(a / b + 1, q, b);
      assert false;
    }
  }

  lemma DivAtMost(a: nat, b: nat, q: nat)
    requires b > 0 && a < (q + 1) * b
    ensures a / b <= q
  {
    DivBounds(a, b);
    if a / b > q {
      MulMono(q + 1, a / b, b);
      assert false;
    }
  }

  lemma MulMono(a: nat, b: nat, c: nat)
    requires a <= b
    ensures a * c <= b * c
  {
  }

  lemma DivMono(a: nat, b: nat, c: nat)
    requires a <= b && c > 0
    ensures a / c <= b / c
  {
    DivBounds(a, c);
    DivAtLeast(b, c, a / c);
  }

  // ---- the sizing bound ----

  // The result is the largest number of tags whose records fill the buffer no faster than asked for
  // and fit into it four times over; one tag is always allowed.
  lemma MaxTagsIsLargest(rateUs: nat, connectionSize: nat, minFillMs: nat, n: nat)
    requires minFillMs > 0 && n >= 1
    ensures n <= MaxTagsPerInstance(rateUs, connectionSize, minFillMs) <==>
            var entries := MaxEntries(connectionSize);
            n == 1 || (n * (1000 * minFillMs) <= entries * rateUs && 4 * n <= entries)
  {
    var a, fill := Times(MaxEntries(connectionSize), rateUs), 1000 * minFillMs;
    if n * fill <= a {
      DivAtLeast(a, fill, n);
    } else {
      DivAtMost(a, fill, n - 1);
    }
  }

  // With neither cap below 1, up to MaxTagsPerInstance tags leave at least four whole sample periods
  // per buffer, and a fill time above four fifths of the minimum asked for, in spite of the floors.
  lemma SizingBound(rateUs: nat, connectionSize: nat, minFillMs: nat, n: nat)
    requires minFillMs > 0
    requires FillCap(rateUs, connectionSize, minFillMs) >= 1 && PeriodCap(connectionSize) >= 1
    requires 1 <= n <= MaxTagsPerInstance(rateUs, connectionSize, minFillMs)
    ensures var periods := MaxEntries(connectionSize) / n;
            periods >= 4 && 5 * (periods * rateUs) > 4 * (1000 * minFillMs)
  {
    var e, fill := MaxEntries(connectionSize), 1000 * minFillMs;
    var p := e / n;
    UnderTheCaps(e, rateUs, fill, n);
    FloorLoss(e, n, p, rateUs, fill);
  }

  // e < (p + 1) n <= 5/4 p n, because p is at least 4.
  lemma UnderTheCaps(e: nat, rateUs: nat, fill: nat, n: nat)
    requires fill > 0 && 1 <= n <= e / 4 && n <= Times(e, rateUs) / fill
    ensures e / n >= 4 && 4 * e < 5 * (n * (e / n)) && n * fill <= e * rateUs && rateUs > 0
  {
    DivBounds(e, 4);
    DivAtLeast(e, n, 4);
    DivBounds(e, n);
    MulMono(4, e / n, n);
    DivBounds(Times(e, rateUs), fill);
    MulMono(n, Times(e, rateUs) / fill, fill);
    assert rateUs == 0 ==> Times(e, rateUs) == 0;
  }

  lemma FloorLoss(e: nat, n: nat, p: nat, rate: nat, fill: nat)
    requires n > 0 && rate > 0 && 4 * e < 5 * (n * p) && n * fill <= e * rate
    ensures 5 * (p * rate) > 4 * fill
  {
    MulStrict(4 * e, 5 * (n * p), rate);
    assert (4 * e) * rate == 4 * (e * rate) && (5 * (n * p)) * rate == (5 * (p * rate)) * n;
    assert (4 * fill) * n == 4 * (n * fill);
    if 5 * (p * rate) <= 4 * fill {
      MulMono(5 * (p * rate), 4 * fill, n);
      assert false;
    }
  }

  lemma MulStrict(a: nat, b: nat, c: nat)
    requires a < b && c > 0
    ensures a * c < b * c
  {
  }

  // The buffer is a whole number of records, wastes less than one of the payload, and one response carries
  // all of it, exactly when the connection has at least 30 bytes. The first poll interval is half of the fill
  // time in whole milliseconds, between 5 and 200.
  lemma BufferFits(rateUs: nat, numTags: nat, connectionSize: nat)
    ensures var (size, poll) := BufferParams(rateUs, RECORD_SIZE, numTags, connectionSize);
            var fill := FillTime(rateUs, connectionSize, Max(1, numTags));
            && (RECORD_SIZE <= size <= connectionSize - 20 <==> connectionSize >= 30)
            && size == 10 * MaxEntries(connectionSize)
            && (if connectionSize <= 20 then size == 480 else size <= connectionSize - 20 < size + 10)
            && (if fill < 12000 then poll == 5
                else if fill >= 400000 then poll == 200
                else 2000 * poll <= fill < 2000 * poll + 2000)
  {
    if connectionSize > 20 { DivBounds(connectionSize - 20, RECORD_SIZE); }
    DivBounds(FillTime(rateUs, connectionSize, Max(1, numTags)), 2000);
  }

  // ---- rates in whole milliseconds, on the two connection sizes there are ----

  function LowRateTags(ms: nat, connectionSize: nat): nat
    requires 0 < ms < 10
  {
    (if connectionSize == 4002 then [9, 19, 29, 39, 49, 59, 69, 79, 89] else [1, 2, 3, 4, 6, 7, 8, 9, 10])[ms - 1]
  }

  lemma LowRateFill(ms: nat, connectionSize: nat)
    requires 0 < ms < 10 && (connectionSize == 4002 || connectionSize == 504)
    ensures var e, n := MaxEntries(connectionSize), LowRateTags(ms, connectionSize);
            && 40000 * n <= e * (1000 * ms) < 40000 * (n + 1) && 0 < 4 * n <= e
            && FillTime(1000 * ms, connectionSize, n) >= 35000
  {
    if ms == 1 {
    } else if ms == 2 {
    } else if ms == 3 {
    } else if ms == 4 {
    } else if ms == 5 {
    } else if ms == 6 {
    } else if ms == 7 {
    } else if ms == 8 {
    } else {
      assert ms == 9;
    }
  }

  lemma LowRateMaxTags(ms: nat, connectionSize: nat)
    requires 0 < ms < 10 && (connectionSize == 4002 || connectionSize == 504)
    ensures MaxTagsPerInstance(1000 * ms, connectionSize, MIN_FILL_MS) == LowRateTags(ms, connectionSize) > 0
  {
    hide MaxTagsPerInstance, FillTime, LowRateTags, MaxEntries;
    LowRateFill(ms, connectionSize);
    MaxTagsIsLargest(1000 * ms, connectionSize, MIN_FILL_MS, LowRateTags(ms, connectionSize));
    MaxTagsIsLargest(1000 * ms, connectionSize, MIN_FILL_MS, LowRateTags(ms, connectionSize) + 1);
  }

  // From 10 ms on the four periods decide.
  lemma HighRateMaxTags(ms: nat)
    requires ms >= 10
    ensures MaxTagsPerInstance(1000 * ms, 4002, MIN_FILL_MS) == 99
    ensures MaxTagsPerInstance(1000 * ms, 504, MIN_FILL_MS) == 12
  {
    hide MaxTagsPerInstance;
    MaxTagsIsLargest(1000 * ms, 4002, MIN_FILL_MS, 99);
    MaxTagsIsLargest(1000 * ms, 4002, MIN_FILL_MS, 100);
    MaxTagsIsLargest(1000 * ms, 504, MIN_FILL_MS, 12);
    MaxTagsIsLargest(1000 * ms, 504, MIN_FILL_MS, 13);
  }

  // ---- the balanced partition ----

  function CeilDiv(a: nat, b: nat): nat
    requires b > 0
  {
    (a + b - 1) / b
  }

  lemma CeilBounds(a: nat, b: nat)
    requires b > 0
    ensures a <= b * CeilDiv(a, b) && b * CeilDiv(a, b) < a + b
  {
  }

  function NumInstances(total: nat, maxTags: nat): nat
    requires maxTags > 0
  {
    CeilDiv(total, maxTags)
  }

  function TagsPerInstance(total: nat, maxTags: nat): nat
    requires total > 0 && maxTags > 0
  {
    CeilBounds(total, maxTags);
    CeilDiv(total, NumInstances(total, maxTags))
  }

  // The first num - 1 chunks are full and leave something for the last one.
  lemma BalancedSizes(total: nat, maxTags: nat)
    requires total > 0 && maxTags > 0
    ensures var num, per := NumInstances(total, maxTags), TagsPerInstance(total, maxTags);
            && num >= 1 && 1 <= per <= maxTags
            && (num - 1) * per < total <= num * per
            && total - (num - 1) * per >= per - num + 1
  {
    var num := NumInstances(total, maxTags);
    CeilBounds(total, maxTags);
    var per := TagsPerInstance(total, maxTags);
    CeilBounds(total, num);
    assert maxTags * (num - 1) < total;
    assert num * (per - 1) == num * per - num;
    if per > maxTags {
      MulMono(maxTags, per - 1, num);
      assert false;
    }
    MulMono(per, maxTags, num - 1);
    assert (num - 1) * per == num * per - per;
  }

  // The chunks a start cuts the selected tags into.
  function Chunks<T>(tags: seq<T>, per: nat): seq<seq<T>>
    requires per > 0
    decreases |tags|
  {
    if tags == [] then []
    else [tags[..Min(per, |tags|)]] + Chunks(tags[Min(per, |tags|)..], per)
  }

  lemma {:induction false} ChunksPartition<T>(tags: seq<T>, per: nat, num: nat)
    requires per > 0 && (num == 0 ==> tags == [])
    requires num > 0 ==> (num - 1) * per < |tags| <= num * per
    ensures |Chunks(tags, per)| == num
    ensures Flatten(Chunks(tags, per)) == tags
    ensures forall i | 0 <= i < num ::
      |Chunks(tags, per)[i]| == if i < num - 1 then per else |tags| - (num - 1) * per
    decreases |tags|
  {
    if num > 0 {
      var k := Min(per, |tags|);
      assert num == 1 ==> |tags| <= per;
      if num > 1 {
        MulMono(1, num - 1, per);
        assert (num - 2) * per == (num - 1) * per - per && (num - 1) * per == num * per - per;
      }
      ChunksPartition(tags[k..], per, num - 1);
      assert tags == tags[..k] + tags[k..];
    }
  }

  // What the balancing promises: exactly num non-empty chunks of at most maxTags, that put together
  // are the selected tags, all but the last of the same size.
  lemma BalancedPartition<T>(tags: seq<T>, maxTags: nat)
    requires tags != [] && maxTags > 0
    ensures var num, per := NumInstances(|tags|, maxTags), TagsPerInstance(|tags|, maxTags);
            && per > 0
            && var chunks := Chunks(tags, per);
            && |chunks| == num >= 1 && Flatten(chunks) == tags
            && (forall i | 0 <= i < num :: 1 <= |chunks[i]| <= per <= maxTags)
            && (forall i | 0 <= i < num - 1 :: |chunks[i]| == per)
            && |chunks[num - 1]| >= per - num + 1
  {
    hide NumInstances, TagsPerInstance, CeilDiv, Chunks;
    var num, per := NumInstances(|tags|, maxTags), TagsPerInstance(|tags|, maxTags);
    BalancedSizes(|tags|, maxTags);
    ChunksPartition(tags, per, num);
    assert (num - 1) * per == num * per - per;
  }

  // ---- the poll interval ----

  // Fill time of the tightest instance, in microseconds.
  function FillTime(rateUs: nat, connectionSize: nat, maxTagsInAny: nat): nat
    requires maxTagsInAny > 0
  {
    MaxEntries(connectionSize) / maxTagsInAny * rateUs
  }

  // More tags never fill more slowly.
  lemma FillTimeAntitone(rateUs: nat, connectionSize: nat, a: nat, b: nat)
    requires 0 < a <= b
    ensures FillTime(rateUs, connectionSize, b) <= FillTime(rateUs, connectionSize, a)
  {
    var e := MaxEntries(connectionSize);
    DivBounds(e, b);
    MulMono(a, b, e / b);
    DivAtLeast(e, a, e / b);
    MulMono(e / b, e / a, rateUs);
  }

  // Half of what the reads of one cycle leave of the fill time, between 5 and 200 ms.
  function PollInterval(fillUs: nat, instances: nat): nat {
    var availableUs: int := fillUs - instances * READ_TIME_US;
    Min(200, if availableUs > 0 then Max(5, availableUs / 2000) else 5)
  }

  // A cycle is all reads and one sleep. It fits into the fill time exactly when 7 ms per instance and
  // the 5 ms floor do; a further read after it fits exactly when 13 ms do.
  lemma CycleFits(fillUs: nat, instances: nat)
    ensures instances * READ_TIME_US + 1000 * PollInterval(fillUs, instances) <= fillUs
       <==> instances * READ_TIME_US + 5000 <= fillUs
    ensures (instances + 1) * READ_TIME_US + 1000 * PollInterval(fillUs, instances) <= fillUs
       <==> instances * READ_TIME_US + 13000 <= fillUs
    ensures 5 <= PollInterval(fillUs, instances) <= 200
  {
  }

  // The sleep is half of what reads of 7 ms leave, in whole milliseconds, between its bounds.
  lemma SleepTakesHalf(fillUs: nat, instances: nat)
    ensures var (free, sleep) := (fillUs - 7000 * instances, PollInterval(fillUs, instances));
            if free < 12000 then sleep == 5
            else if free >= 400000 then sleep == 200
            else 2000 * sleep <= free < 2000 * sleep + 2000
  {
  }

  lemma PollIntervalMono(fillA: nat, fillB: nat, instances: nat)
    requires fillA <= fillB
    ensures PollInterval(fillA, instances) <= PollInterval(fillB, instances)
  {
  }
}
