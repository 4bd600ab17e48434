// The configuration dialog's preview: how many tags are ticked, and what the trend will cost.
module Dialog {
  import opened Bytes
  import opened Sizing

  const PREVIEW_CONNECTION: nat := 4002

  // ---- the tag tree ----

  datatype Item = Item(checkable: bool, checked: bool, tagName: bytes, dataType: uint16, children: seq<Item>)

  // The tags a tree selects, depth first: ticked items that carry a tag name.
  function Selected(items: seq<Item>): seq<(bytes, uint16)> {
    if items == [] then []
    else
      var it := items[0];
      (if it.checkable && it.checked && it.tagName != [] then [(it.tagName, it.dataType)] else [])
      + Selected(it.children) + Selected(items[1..])
  }

  // The entries the preview counts: those whose type code is positive.
  function Countable(tags: seq<(bytes, uint16)>): nat {
    if tags == [] then 0 else (if tags[0].1 > 0 then 1 else 0) + Countable(tags[1..])
  }

  lemma {:induction false} CountableAppend(a: seq<(bytes, uint16)>, b: seq<(bytes, uint16)>)
    ensures Countable(a + b) == Countable(a) + Countable(b)
  {
    if a == [] {
      assert a + b == b;
    } else {
      assert (a + b)[1..] == a[1..] + b;
      CountableAppend(a[1..], b);
    }
  }

  lemma SelectedSplit(items: seq<Item>, i: nat)
    requires i < |items|
    ensures var it := items[i];
            var own := if it.checkable && it.checked && it.tagName != [] then [(it.tagName, it.dataType)] else [];
            Selected(items[i..]) == own + Selected(it.children) + Selected(items[i + 1..])
  {
  }

  // collectSelectedTags: a recursive walk that appends to the configuration's list.
  method Collect(items: seq<Item>, soFar: seq<(bytes, uint16)>) returns (tags: seq<(bytes, uint16)>)
    ensures tags == soFar + Selected(items)
    decreases items
  {
    tags := soFar;
    assert items[0..] == items;
    for i := 0 to |items|
      invariant soFar + Selected(items) == tags + Selected(items[i..])
    {
      var item := items[i];
      SelectedSplit(items, i);
      if item.checkable && item.checked {
        if item.tagName != [] {
          tags := tags + [(item.tagName, item.dataType)];
        }
      }
      tags := Collect(item.children, tags);
    }
  }

  // updateRamEstimate: the same walk, counting.
  method CountTags(items: seq<Item>, soFar: nat) returns (tagCount: nat)
    ensures tagCount == soFar + Countable(Selected(items))
    decreases items
  {
    tagCount := soFar;
    assert items[0..] == items;
    for i := 0 to |items|
      invariant soFar + Countable(Selected(items)) == tagCount + Countable(Selected(items[i..]))
    {
      var item := items[i];
      SelectedSplit(items, i);
      var own: seq<(bytes, uint16)> :=
        if item.checkable && item.checked && item.tagName != [] then [(item.tagName, item.dataType)] else [];
      CountableAppend(own, Selected(item.children));
      CountableAppend(own + Selected(item.children), Selected(items[i + 1..]));
      assert own != [] ==> own[1..] == [];
      if item.checkable && item.checked {
        if item.tagName != [] && item.dataType > 0 {
          tagCount := tagCount + 1;
        }
      }
      tagCount := CountTags(item.children, tagCount);
    }
  }

  // The preview's count is the number of tags that will be trended exactly when every one of them has
  // a type code; it never exceeds it.
  lemma {:induction false} PreviewCount(tags: seq<(bytes, uint16)>)
    ensures Countable(tags) <= |tags|
    ensures Countable(tags) == |tags| <==> forall k | 0 <= k < |tags| :: tags[k].1 > 0
  {
    if tags != [] {
      PreviewCount(tags[1..]);
      if forall k | 0 <= k < |tags[1..]| :: tags[1..][k].1 > 0 {
        assert forall k | 1 <= k < |tags| :: tags[k] == tags[1..][k - 1];
      } else {
        var k :| 0 <= k < |tags[1..]| && tags[1..][k].1 == 0;
        assert tags[k + 1].1 == 0;
      }
    }
  }

  // ---- the numbers shown ----

  function EstimateTagBufferSize(connectionSize: nat): nat { MaxPayload(connectionSize) / RECORD_SIZE * RECORD_SIZE }

  function PreviewMaxTags(rateUs: nat): nat { MaxTagsPerInstance(rateUs, PREVIEW_CONNECTION, MIN_FILL_MS) }

  function PreviewInstances(rateUs: nat, tagCount: nat): nat { NumInstances(tagCount, PreviewMaxTags(rateUs)) }

  // In milliseconds, from the fill time of an instance with as many tags as fit.
  function PreviewPoll(rateUs: nat, tagCount: nat): nat {
    var availableUs: int := FillTime(rateUs, PREVIEW_CONNECTION, PreviewMaxTags(rateUs))
                            - PreviewInstances(rateUs, tagCount) * READ_TIME_US;
    Clamp(if availableUs > 0 then availableUs / 2000 else 5)
  }

  lemma PreviewPollIsPollInterval(rateUs: nat, tagCount: nat)
    ensures PreviewPoll(rateUs, tagCount)
         == PollInterval(FillTime(rateUs, PREVIEW_CONNECTION, PreviewMaxTags(rateUs)),
                         PreviewInstances(rateUs, tagCount))
  {
  }

  // The largest chunk, as the streamer looks for it.
  function MaxLength<T>(chunks: seq<seq<T>>): nat {
    if chunks == [] then 0 else Max(|chunks[0]|, MaxLength(chunks[1..]))
  }

  lemma {:induction false} MaxLengthIs<T>(chunks: seq<seq<T>>, per: nat)
    requires chunks != [] && |chunks[0]| == per
    requires forall i | 0 <= i < |chunks| :: |chunks[i]| <= per
    ensures MaxLength(chunks) == per
  {
    MaxLengthBound(chunks[1..], per);
  }

  lemma {:induction false} MaxLengthBound<T>(chunks: seq<seq<T>>, bound: nat)
    requires forall i | 0 <= i < |chunks| :: |chunks[i]| <= bound
    ensures MaxLength(chunks) <= bound
  {
    if chunks != [] { MaxLengthBound(chunks[1..], bound); }
  }

  // On a full-size connection the preview shows the instances the streamer will create and the buffer
  // each will get, and never promises a slower poll than the streamer's.
  lemma PreviewAgrees<T>(tags: seq<T>, rateUs: nat)
    requires tags != []
    ensures var maxTags := MaxTagsPerInstance(rateUs, PREVIEW_CONNECTION, MIN_FILL_MS);
            var per := TagsPerInstance(|tags|, maxTags);
            && per > 0
            && var chunks := Chunks(tags, per);
            && PreviewInstances(rateUs, |tags|) == |chunks|
            && (forall i | 0 <= i < |chunks| ::
                  EstimateTagBufferSize(PREVIEW_CONNECTION)
                  == BufferParams(rateUs, RECORD_SIZE, |chunks[i]|, PREVIEW_CONNECTION).0)
            && MaxLength(chunks) == per > 0
            && PreviewPoll(rateUs, |tags|)
               <= PollInterval(FillTime(rateUs, PREVIEW_CONNECTION, MaxLength(chunks)), |chunks|)
  {
    var maxTags := MaxTagsPerInstance(rateUs, PREVIEW_CONNECTION, MIN_FILL_MS);
    var per := TagsPerInstance(|tags|, maxTags);
    hide NumInstances, TagsPerInstance, Chunks, MaxTagsPerInstance, PollInterval, FillTime;
    BalancedPartition(tags, maxTags);
    var chunks := Chunks(tags, per);
    FirstChunkIsLargest(tags, maxTags);
    MaxLengthIs(chunks, per);
    FillTimeAntitone(rateUs, PREVIEW_CONNECTION, per, maxTags);
    PollIntervalMono(FillTime(rateUs, PREVIEW_CONNECTION, maxTags), FillTime(rateUs, PREVIEW_CONNECTION, per),
                     |chunks|);
    PreviewPollIsPollInterval(rateUs, |tags|);
  }

  lemma FirstChunkIsLargest<T>(tags: seq<T>, maxTags: nat)
    requires tags != [] && maxTags > 0
    ensures var per := TagsPerInstance(|tags|, maxTags);
            per > 0 && Chunks(tags, per) != [] && |Chunks(tags, per)[0]| == per
  {
    BalancedSizes(|tags|, maxTags);
    var num, per := NumInstances(|tags|, maxTags), TagsPerInstance(|tags|, maxTags);
    CeilBounds(|tags|, num);
    if num > 1 {
      MulMono(1, num - 1, per);
    }
    assert per <= |tags|;
  }

  // ---- on the 504-byte fallback connection ----

  const FALLBACK_CONNECTION: nat := 504

  function FallbackMaxTags(rateUs: nat): nat { MaxTagsPerInstance(rateUs, FALLBACK_CONNECTION, MIN_FILL_MS) }

  lemma EntriesOfBoth()
    ensures MaxEntries(FALLBACK_CONNECTION) == 48 && MaxEntries(PREVIEW_CONNECTION) == 398
  {
  }

  // The smaller connection allows as many tags per instance, or at most half as many.
  lemma FallbackIsEqualOrHalf(rateUs: nat)
    ensures var (small, large) := (FallbackMaxTags(rateUs), PreviewMaxTags(rateUs));
            small == large || 2 * small <= large
  {
    hide MaxTagsPerInstance, MaxEntries;
    EntriesOfBoth();
    var small := FallbackMaxTags(rateUs);
    if small > 1 {
      MaxTagsIsLargest(rateUs, FALLBACK_CONNECTION, MIN_FILL_MS, small);
      MaxTagsIsLargest(rateUs, PREVIEW_CONNECTION, MIN_FILL_MS, 2 * small);
    }
  }

  lemma JustOne(total: nat, size: nat, q: nat)
    requires 1 <= total <= size && total <= size * q < total + size
    ensures q == 1
  {
    if q >= 2 { MulMono(2, q, size); }
  }

  lemma NotHalved(total: nat, small: nat, large: nat, q: nat)
    requires 2 * small <= large && small < total <= small * q
    ensures large * q >= total + large
  {
    if q >= 2 {
      MulMono(2 * small, large, q - 1);
      assert 2 * small * (q - 1) == small * q + small * (q - 2);
      assert large * (q - 1) == large * q - large;
    }
  }

  // Halving the number of instances, or better, changes it unless there is only one.
  lemma FewerInstances(total: nat, small: nat, large: nat)
    requires total >= 1 && small >= 1 && 2 * small <= large
    ensures NumInstances(total, large) == NumInstances(total, small) <==> total <= small
  {
    hide CeilDiv;
    CeilBounds(total, small);
    CeilBounds(total, large);
    if total <= small {
      JustOne(total, small, NumInstances(total, small));
      JustOne(total, large, NumInstances(total, large));
    } else {
      NotHalved(total, small, large, NumInstances(total, small));
    }
  }

  // The number of instances shown is the streamer's exactly when one instance is enough, or both
  // connections allow the same number of tags in one.
  lemma PreviewExactlyWhen(rateUs: nat, total: nat)
    requires total >= 1
    ensures PreviewInstances(rateUs, total) == NumInstances(total, FallbackMaxTags(rateUs))
            <==> total <= FallbackMaxTags(rateUs) || FallbackMaxTags(rateUs) == PreviewMaxTags(rateUs)
  {
    hide NumInstances, MaxTagsPerInstance;
    FallbackIsEqualOrHalf(rateUs);
    if FallbackMaxTags(rateUs) != PreviewMaxTags(rateUs) {
      FewerInstances(total, FallbackMaxTags(rateUs), PreviewMaxTags(rateUs));
    }
  }

  // The buffer shown is never the one that is allocated.
  lemma PreviewBufferNeverAgrees(rateUs: nat, numTags: nat)
    ensures EstimateTagBufferSize(PREVIEW_CONNECTION) == 3980
    ensures BufferParams(rateUs, RECORD_SIZE, numTags, FALLBACK_CONNECTION).0 == 480
  {
  }

  // What the reads of a cycle leave of the fill time, as each side computes it.
  function PreviewFree(rateUs: nat, total: nat): int {
    FillTime(rateUs, PREVIEW_CONNECTION, PreviewMaxTags(rateUs)) - PreviewInstances(rateUs, total) * READ_TIME_US
  }

  function FallbackFree(rateUs: nat, total: nat): int
    requires total >= 1
  {
    var maxTags := FallbackMaxTags(rateUs);
    BalancedSizes(total, maxTags);
    FillTime(rateUs, FALLBACK_CONNECTION, TagsPerInstance(total, maxTags)) - NumInstances(total, maxTags) * READ_TIME_US
  }

  // The streamer's poll interval on the fallback connection.
  function FallbackPoll(rateUs: nat, total: nat): nat
    requires total >= 1
  {
    var maxTags := FallbackMaxTags(rateUs);
    BalancedSizes(total, maxTags);
    PollInterval(FillTime(rateUs, FALLBACK_CONNECTION, TagsPerInstance(total, maxTags)), NumInstances(total, maxTags))
  }

  // The preview promises no slower poll than the streamer's exactly when its free time is below 12 ms,
  // the streamer's is at least 400 ms, or it is no longer than the streamer's in steps of 2 ms.
  lemma PollsCompare(rateUs: nat, total: nat)
    requires total >= 1
    ensures var (shown, used) := (PreviewFree(rateUs, total), FallbackFree(rateUs, total));
            PreviewPoll(rateUs, total) <= FallbackPoll(rateUs, total)
            <==> shown < 12000 || used >= 400000 || shown / 2000 <= used / 2000
  {
    hide NumInstances, TagsPerInstance, FillTime, MaxTagsPerInstance;
  }

  // ---- the poll interval on the fallback connection, at rates in whole milliseconds ----

  // Where one instance is enough the preview never promises a slower poll than the streamer's.
  lemma SingleInstancePoll(ms: nat, total: nat)
    requires ms > 0 && 1 <= total <= FallbackMaxTags(1000 * ms)
    ensures PreviewPoll(1000 * ms, total) <= FallbackPoll(1000 * ms, total)
  {
    hide MaxTagsPerInstance, NumInstances, TagsPerInstance, FillTime, PollInterval, PreviewPoll;
    var rate, small, large := 1000 * ms, FallbackMaxTags(1000 * ms), PreviewMaxTags(1000 * ms);
    FallbackIsEqualOrHalf(rate);
    OneIsEnough(total, small);
    OneIsEnough(total, large);
    FillsCompare(ms);
    FillTimeAntitone(rate, FALLBACK_CONNECTION, total, small);
    PollIntervalMono(FillTime(rate, PREVIEW_CONNECTION, large), FillTime(rate, FALLBACK_CONNECTION, total), 1);
    PreviewPollIsPollInterval(rate, total);
  }

  lemma OneIsEnough(total: nat, size: nat)
    requires 1 <= total <= size
    ensures NumInstances(total, size) == 1 && TagsPerInstance(total, size) == total
  {
    hide CeilDiv;
    CeilBounds(total, size);
    JustOne(total, size, CeilDiv(total, size));
    CeilBounds(total, 1);
  }

  // A full instance of the smaller connection fills no faster than one of the large connection.
  lemma FillsCompare(ms: nat)
    requires ms > 0
    ensures FillTime(1000 * ms, PREVIEW_CONNECTION, PreviewMaxTags(1000 * ms))
         <= FillTime(1000 * ms, FALLBACK_CONNECTION, FallbackMaxTags(1000 * ms))
  {
    hide MaxTagsPerInstance;
    if ms >= 10 {
      HighRateMaxTags(ms);
    } else {
      LowRateMaxTags(ms, PREVIEW_CONNECTION);
      LowRateMaxTags(ms, FALLBACK_CONNECTION);
      LowRatePeriods(ms);
      MulMono(MaxEntries(PREVIEW_CONNECTION) / LowRateTags(ms, PREVIEW_CONNECTION),
              MaxEntries(FALLBACK_CONNECTION) / LowRateTags(ms, FALLBACK_CONNECTION), 1000 * ms);
    }
  }

  lemma LowRatePeriods(ms: nat)
    requires 0 < ms < 10
    ensures LowRateTags(ms, PREVIEW_CONNECTION) > 0 && LowRateTags(ms, FALLBACK_CONNECTION) > 0
    ensures MaxEntries(PREVIEW_CONNECTION) / LowRateTags(ms, PREVIEW_CONNECTION)
         <= MaxEntries(FALLBACK_CONNECTION) / LowRateTags(ms, FALLBACK_CONNECTION)
  {
    if ms == 1 {
    } else if ms == 2 {
    } else if ms == 3 {
    } else if ms == 4 {
    } else if ms == 5 {
    } else if ms == 6 {
    } else if ms == 7 {
    } else if ms == 8 {
    } else {
      assert ms == 9;
    }
  }

  // How many periods the largest of the balanced chunks leaves, 12 tags being the most.
  lemma PeriodsOfTwelve(total: nat)
    requires 1 <= total
    ensures var per := TagsPerInstance(total, 12);
            && 0 < per <= 12 && 48 / per >= 4
            && (13 <= total <= 18 ==> 48 / per >= 5)
            && (25 <= total <= 27 ==> 48 / per == 5)
            && (19 <= total <= 24 || 28 <= total ==> 48 / per == 4)
  {
    hide NumInstances, TagsPerInstance;
    var num, per := NumInstances(total, 12), TagsPerInstance(total, 12);
    TwelveBounds(total);
    if 13 <= total <= 18 {
      assert num == 2 && per <= 9;
    } else if 25 <= total <= 27 {
      assert num == 3 && per == 9;
    } else if total >= 19 {
      if per <= 9 {
        MulMono(per, 9, num);
        assert false;
      }
    }
  }

  lemma TwelveBounds(total: nat)
    requires 1 <= total
    ensures var num, per := NumInstances(total, 12), TagsPerInstance(total, 12);
            && total <= 12 * num < total + 12 && total <= num * per < total + num && 0 < num && 0 < per <= 12
  {
    hide CeilDiv;
    BalancedSizes(total, 12);
    CeilBounds(total, 12);
    CeilBounds(total, NumInstances(total, 12));
  }

  // From 10 ms on, and for as many tags as the dialog admits, the preview promises no slower poll than
  // the streamer's exactly up to 18 tags; for 25 to 27 tags, from 13 ms on; and at rates so slow that
  // both are at their upper limit.
  lemma PreviewPollExactlyWhen(ms: nat, total: nat)
    requires ms >= 10 && 1 <= total <= 256
    ensures PreviewPoll(1000 * ms, total) <= FallbackPoll(1000 * ms, total)
            <==> total <= 18 || (25 <= total <= 27 && ms >= 13) || 4 * ms >= 400 + 7 * NumInstances(total, 12)
  {
    hide MaxTagsPerInstance, NumInstances, TagsPerInstance, FillTime, PollInterval, PreviewPoll, FallbackPoll;
    if total <= 12 {
      HighRateMaxTags(ms);
      SingleInstancePoll(ms, total);
    } else {
      HighRateFree(ms, total);
      HighRateCounts(total);
      PeriodsOfTwelve(total);
      PollsCompare(1000 * ms, total);
      var p := 48 / TagsPerInstance(total, 12);
      if p >= 5 { MulMono(5, p, 1000 * ms); }
    }
  }

  lemma HighRateFree(ms: nat, total: nat)
    requires ms >= 10 && total >= 1
    ensures TagsPerInstance(total, 12) > 0
    ensures PreviewFree(1000 * ms, total) == 4000 * ms - 7000 * NumInstances(total, 99)
    ensures FallbackFree(1000 * ms, total)
         == 48 / TagsPerInstance(total, 12) * (1000 * ms) - 7000 * NumInstances(total, 12)
  {
    hide MaxTagsPerInstance, NumInstances, TagsPerInstance;
    HighRateMaxTags(ms);
    TwelveBounds(total);
  }

  lemma HighRateCounts(total: nat)
    requires 13 <= total <= 256
    ensures var large, small := NumInstances(total, 99), NumInstances(total, 12);
            && 1 <= large <= 3 && large < small
            && (total <= 18 ==> large == 1 && small == 2) && (25 <= total <= 27 ==> large == 1 && small == 3)
  {
    hide CeilDiv;
    CeilBounds(total, 99);
    CeilBounds(total, 12);
  }

  // Neither order is certain: for 20 tags at 10 ms the preview shows one instance polled every 16 ms, and the
  // streamer runs two, polled every 13 ms. A single tag at that rate is polled more slowly than shown.
  lemma PreviewFallsShort()
    ensures PreviewInstances(10000, 20) == 1 && NumInstances(20, FallbackMaxTags(10000)) == 2
    ensures PreviewPoll(10000, 20) == 16 && FallbackPoll(10000, 20) == 13
    ensures PreviewPoll(10000, 1) == 16 && FallbackPoll(10000, 1) == 200
  {
    hide FallbackMaxTags, PreviewMaxTags, FillTime, NumInstances, TagsPerInstance, PreviewPoll;
    CapsAtTenMs();
    FillsAtTenMs();
    CountsAtTenMs();
    SizesAtTenMs();
    PreviewPollIsPollInterval(10000, 20);
    PreviewPollIsPollInterval(10000, 1);
  }

  lemma CapsAtTenMs()
    ensures PreviewMaxTags(10000) == 99 && FallbackMaxTags(10000) == 12
  {
    assert FillCap(10000, 4002, 40) == 99 && FillCap(10000, 504, 40) == 12;
  }

  lemma FillsAtTenMs()
    ensures FillTime(10000, 4002, 99) == 40000 && FillTime(10000, 504, 10) == 40000 && FillTime(10000, 504, 1) == 480000
  {
    assert MaxEntries(4002) / 99 == 4 && MaxEntries(504) / 10 == 4 && MaxEntries(504) / 1 == 48;
  }

  lemma CountsAtTenMs()
    ensures NumInstances(20, 99) == 1 && NumInstances(1, 99) == 1
    ensures NumInstances(1, 12) == 1 && NumInstances(20, 12) == 2
  {
  }

  lemma SizesAtTenMs()
    ensures TagsPerInstance(20, 12) == 10 && TagsPerInstance(1, 12) == 1
  {
  }
}
