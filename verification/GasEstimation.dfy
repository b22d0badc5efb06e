/** The gas price estimate: a median over recent prices, clamped to the gas schedule's bounds and cached. */
module GasEstimation {
  import opened Common
  import opened ConsensusTypes
  import opened Sorting

  const SEARCH_SIZE: nat := 100_000

  type Price = p: nat | p <= U64_MAX

  function SaturatingSub(a: nat, b: nat): nat { if a < b then 0 else a - b }

  predicate PriceLe(a: Price, b: Price) { a <= b }

  function SortPrices(prices: seq<Price>): (r: seq<Price>)
    ensures |r| == |prices| && multiset(r) == multiset(prices) && Ascending(r)
  {
    var r := Sort(prices, PriceLe);
    assert forall i, j :: 0 <= i < j < |r| ==> PriceLe(r[i], r[j]);
    r
  }

  predicate Ascending(prices: seq<Price>)
  {
    forall i, j :: 0 <= i < j < |prices| ==> prices[i] <= prices[j]
  }

  // -------------------------------------------------------------------- median

  /** Zero when there are no prices; the average of the middle two is taken in saturating arithmetic. */
  function Median(prices: seq<Price>): Price
  {
    if prices == [] then 0 else MiddleOf(SortPrices(prices))
  }

  function MiddleOf(sorted: seq<Price>): Price
    requires sorted != []
  {
    var mid := |sorted| / 2;
    if |sorted| % 2 == 1 then sorted[mid] else SaturatingAdd(sorted[mid], sorted[mid - 1]) / 2
  }

  /** How many prices are at most, and at least, `x`. */
  function CountLe(prices: seq<Price>, x: nat): (n: nat)
    ensures n <= |prices|
  {
    if prices == [] then 0 else CountLe(prices[..|prices| - 1], x) + if prices[|prices| - 1] <= x then 1 else 0
  }

  function CountGe(prices: seq<Price>, x: nat): nat
  {
    if prices == [] then 0 else CountGe(prices[..|prices| - 1], x) + if prices[|prices| - 1] >= x then 1 else 0
  }

  ghost predicate IsMedian(prices: seq<Price>, x: nat)
  {
    2 * CountLe(prices, x) >= |prices| && 2 * CountGe(prices, x) >= |prices|
  }

  lemma {:induction false} InsertCounts(prices: seq<Price>, p: Price, x: nat)
    ensures CountLe(Insert(prices, p, PriceLe), x) == CountLe(prices, x) + if p <= x then 1 else 0
    ensures CountGe(Insert(prices, p, PriceLe), x) == CountGe(prices, x) + if p >= x then 1 else 0
  {
    var r := Insert(prices, p, PriceLe);
    if prices == [] || prices[|prices| - 1] <= p {
      assert r[..|r| - 1] == prices;
    } else {
      InsertCounts(prices[..|prices| - 1], p, x);
      assert r[..|r| - 1] == Insert(prices[..|prices| - 1], p, PriceLe);
    }
  }

  lemma {:induction false} SortCounts(prices: seq<Price>, x: nat)
    ensures CountLe(SortPrices(prices), x) == CountLe(prices, x) && CountGe(SortPrices(prices), x) == CountGe(prices, x)
  {
    if prices != [] {
      SortCounts(prices[..|prices| - 1], x);
      InsertCounts(SortPrices(prices[..|prices| - 1]), prices[|prices| - 1], x);
    }
  }

  /** In an ascending list the prices at most `x` are a prefix. */
  lemma {:induction false} CountLeIsPrefix(sorted: seq<Price>, x: nat, k: nat)
    requires Ascending(sorted) && k <= |sorted|
    ensures k > 0 && sorted[k - 1] <= x ==> CountLe(sorted, x) >= k
    ensures k < |sorted| && sorted[k] > x ==> CountLe(sorted, x) <= k
  {
    if sorted != [] {
      var before := sorted[..|sorted| - 1];
      if k < |sorted| {
        CountLeIsPrefix(before, x, k);
      } else {
        CountLeIsPrefix(before, x, k - 1);
      }
    }
  }

  lemma {:induction false} CountsCover(prices: seq<Price>, x: nat, y: nat)
    requires x + 1 == y
    ensures CountLe(prices, x) + CountGe(prices, y) == |prices|
  {
    if prices != [] {
      CountsCover(prices[..|prices| - 1], x, y);
    }
  }

  lemma SortedMedianExact(sorted: seq<Price>, lower: nat, upper: nat, x: nat)
    requires Ascending(sorted) && sorted != []
    requires upper == |sorted| / 2 && lower == if |sorted| % 2 == 0 then upper - 1 else upper
    ensures IsMedian(sorted, x) <==> sorted[lower] <= x <= sorted[upper]
  {
    CountLeIsPrefix(sorted, x, lower + 1);
    CountLeIsPrefix(sorted, x, lower);
    if x > 0 {
      CountsCover(sorted, x - 1, x);
      CountLeIsPrefix(sorted, x - 1, upper);
      CountLeIsPrefix(sorted, x - 1, upper + 1);
    } else {
      AllAtLeastZero(sorted);
    }
  }

  lemma {:induction false} AllAtLeastZero(prices: seq<Price>)
    ensures CountGe(prices, 0) == |prices|
  {
    if prices != [] {
      AllAtLeastZero(prices[..|prices| - 1]);
    }
  }

  /** No average is taken, or the lower of the two prices averaged is at most half the largest. */
  predicate AverageFits(sorted: seq<Price>)
    requires sorted != []
  {
    |sorted| % 2 == 1 || sorted[|sorted| / 2 - 1] <= U64_MAX / 2
  }

  lemma MiddleExact(sorted: seq<Price>)
    requires Ascending(sorted) && sorted != []
    ensures IsMedian(sorted, MiddleOf(sorted)) <==> AverageFits(sorted)
  {
    var mid := |sorted| / 2;
    SortedMedianExact(sorted, if |sorted| % 2 == 0 then mid - 1 else mid, mid, MiddleOf(sorted));
    if |sorted| % 2 == 0 {
      assert sorted[mid - 1] <= sorted[mid];
    }
  }

  /** The computed median is one exactly when the list has odd length or its lower middle price is at most
      half the largest 64-bit number. */
  lemma MedianExact(prices: seq<Price>)
    requires prices != []
    ensures IsMedian(prices, Median(prices)) <==> AverageFits(SortPrices(prices))
  {
    SortCounts(prices, MiddleOf(SortPrices(prices)));
    SameCountsExact(prices, SortPrices(prices));
  }

  lemma SameCountsExact(prices: seq<Price>, sorted: seq<Price>)
    requires Ascending(sorted) && sorted != [] && |sorted| == |prices|
    requires CountLe(sorted, MiddleOf(sorted)) == CountLe(prices, MiddleOf(sorted))
    requires CountGe(sorted, MiddleOf(sorted)) == CountGe(prices, MiddleOf(sorted))
    ensures IsMedian(prices, MiddleOf(sorted)) <==> AverageFits(sorted)
  {
    MiddleExact(sorted);
  }

  /** The value itself: nothing without prices, the middle price of an odd number, and of an even number the average of
      the middle two, rounded down, as long as their sum fits 64 bits. */
  lemma MedianAverages(prices: seq<Price>)
    ensures prices == [] ==> Median(prices) == 0
    ensures |prices| % 2 == 1 ==> Median(prices) == SortPrices(prices)[|prices| / 2]
    ensures prices != [] && |prices| % 2 == 0 ==>
              var lower, upper := SortPrices(prices)[|prices| / 2 - 1], SortPrices(prices)[|prices| / 2];
              && (lower + upper <= U64_MAX ==> 0 <= lower + upper - 2 * Median(prices) <= 1)
              && (lower + upper > U64_MAX ==> Median(prices) == 0x7fff_ffff_ffff_ffff)
  {
  }

  /** Two equal prices above that bound are underestimated. */
  lemma MedianSaturates(p: Price)
    requires p > U64_MAX / 2
    ensures Median([p, p]) == U64_MAX / 2 < p && !IsMedian([p, p], Median([p, p]))
  {
    MedianExact([p, p]);
    var sorted := SortPrices([p, p]);
    assert multiset(sorted) == multiset{p, p};
    assert sorted[0] in multiset(sorted) && sorted[1] in multiset(sorted);
  }

  // -------------------------------------------------------------------- caching

  datatype LedgerInfo = LedgerInfo(epoch: Epoch, version: nat, oldestVersion: nat)

  datatype Schedule = Schedule(minPrice: Price, maxPrice: Price)

  datatype Estimate = Estimate(deprioritized: Price, median: Price, prioritized: Price)

  function Clamp(schedule: Schedule, p: Price): Price
  {
    Min(schedule.maxPrice, Max(schedule.minPrice, p))
  }

  /** Prices within the bounds stay as they are, others move to the nearer bound. */
  lemma ClampExactly(schedule: Schedule, p: Price)
    requires schedule.minPrice <= schedule.maxPrice
    ensures schedule.minPrice <= p <= schedule.maxPrice ==> Clamp(schedule, p) == p
    ensures p < schedule.minPrice ==> Clamp(schedule, p) == schedule.minPrice
    ensures p > schedule.maxPrice ==> Clamp(schedule, p) == schedule.maxPrice
  {
  }

  /** Index of the first of the ascending buckets the median reaches, or 0. */
  method BucketIndex(buckets: seq<Price>, median: Price) returns (index: nat)
    ensures index == 0
  {
    var sorted := SortPrices(buckets);
    for i := 0 to |sorted|
      invariant i > 0 ==> median < sorted[0]
    {
      assert sorted[0] <= sorted[i];
      if median >= sorted[i] {
        return i;
      }
    }
    return 0;
  }

  class GasEstimator {
    const buckets: seq<Price>
    const schedules: Epoch -> Schedule    // the schedule in force during an epoch
    var scheduleEpoch: Option<Epoch>
    var scheduleParams: Option<Schedule>
    var lastUpdatedVersion: Option<nat>
    var lastUpdatedEpoch: Option<Epoch>
    var estimate: Estimate
    ghost var computedFrom: seq<Price>

    /** What both caches hold belongs to the epoch they are labelled with. */
    ghost predicate Valid()
      reads this
    {
      && (scheduleEpoch.Some? && scheduleParams.Some? ==> scheduleParams.value == schedules(scheduleEpoch.value))
      && (lastUpdatedVersion.Some? ==>
            lastUpdatedEpoch.Some? && estimate.median == Clamp(schedules(lastUpdatedEpoch.value), Median(computedFrom)))
    }

    constructor (buckets: seq<Price>, schedules: Epoch -> Schedule)
      ensures this.buckets == buckets && this.schedules == schedules && Valid() && lastUpdatedVersion == None
    {
      this.buckets, this.schedules := buckets, schedules;
      scheduleEpoch, scheduleParams, lastUpdatedVersion, lastUpdatedEpoch := None, None, None, None;
      estimate := Estimate(0, 0, 0);
      computedFrom := [];
    }

    /** `fetched` is what storage yields at the ledger info's version, `None` if it cannot be read. */
    method GetGasSchedule(li: LedgerInfo, fetched: Option<Schedule>) returns (r: Option<Schedule>)
      requires Valid() && (fetched.Some? ==> fetched.value == schedules(li.epoch))
      modifies this`scheduleEpoch, this`scheduleParams
      ensures Valid()
      ensures r.Some? ==> r.value == schedules(li.epoch) && scheduleEpoch == Some(li.epoch) && scheduleParams == r
      ensures r.None? <==> fetched.None? && !(old(scheduleEpoch) == Some(li.epoch) && old(scheduleParams).Some?)
      ensures r.None? ==> scheduleEpoch == old(scheduleEpoch) && scheduleParams == old(scheduleParams)
    {
      if scheduleEpoch == Some(li.epoch) && scheduleParams.Some? {
        return scheduleParams;
      }
      if fetched.None? {
        return None;
      }
      scheduleParams := fetched;
      scheduleEpoch := Some(li.epoch);
      return scheduleParams;
    }

    function OldestSearchVersion(li: LedgerInfo): nat
    {
      Max(SaturatingSub(li.version, SEARCH_SIZE), li.oldestVersion)
    }

    /** Whether the cached estimate answers for `li`. */
    predicate Fresh(li: LedgerInfo)
      reads this
    {
      && lastUpdatedVersion.Some? && lastUpdatedVersion.value > OldestSearchVersion(li)
      && li.epoch == (if lastUpdatedEpoch.Some? then lastUpdatedEpoch.value else 0)
    }

    /** The last estimate is of the epoch asked about, and of a version later than the oldest in storage and fewer than
        100,000 before the one asked about. */
    ghost predicate Reusable(li: LedgerInfo)
      reads this
    {
      && lastUpdatedVersion.Some? && lastUpdatedEpoch == Some(li.epoch)
      && li.oldestVersion < lastUpdatedVersion.value && li.version < lastUpdatedVersion.value + 100_000
    }

    /** Recompute the estimate; called when the cache does not answer. */
    method Refresh(li: LedgerInfo, schedule: Schedule, prices: seq<Price>)
      requires Valid() && schedule == schedules(li.epoch) && buckets != []
      modifies this`lastUpdatedVersion, this`lastUpdatedEpoch, this`estimate, this`computedFrom
      ensures Valid()
      ensures lastUpdatedVersion == Some(li.version) && lastUpdatedEpoch == Some(li.epoch) && computedFrom == prices
      ensures estimate.deprioritized == Max(schedule.minPrice, buckets[0])
      ensures estimate.prioritized == Min(schedule.maxPrice, if |buckets| > 1 then buckets[1] else SaturatingAdd(estimate.median, 1))
    {
      lastUpdatedVersion := Some(li.version);
      lastUpdatedEpoch := Some(li.epoch);
      var median := ObservedMedian(prices);
      var clamped := Clamp(schedule, median);
      var index := BucketIndex(buckets, clamped);
      var previous := buckets[SaturatingSub(index, 1)];
      var next := if index + 1 < |buckets| then buckets[index + 1] else SaturatingAdd(clamped, 1);
      estimate := Estimate(Max(schedule.minPrice, previous), clamped, Min(schedule.maxPrice, next));
      computedFrom := prices;
    }

    /** The estimate returned is the clamped median of prices gathered in the same epoch, fewer than 100,000
        versions before the ledger version asked about; so it is within the epoch's bounds.  `prices` is what
        the database yields, `None` on an error. */
    method EstimateGasPrice(li: LedgerInfo, fetched: Option<Schedule>, prices: Option<seq<Price>>) returns (r: Option<Estimate>)
      requires Valid() && buckets != [] && (fetched.Some? ==> fetched.value == schedules(li.epoch))
      modifies this
      ensures Valid()
      ensures r.Some? ==>
                && lastUpdatedEpoch == Some(li.epoch)
                && lastUpdatedVersion.Some? && li.version < lastUpdatedVersion.value + SEARCH_SIZE
                && r.value == estimate && estimate.median == Clamp(schedules(li.epoch), Median(computedFrom))
      ensures r.Some? && schedules(li.epoch).minPrice <= schedules(li.epoch).maxPrice ==>
                schedules(li.epoch).minPrice <= r.value.median <= schedules(li.epoch).maxPrice
      ensures r.Some? <==>
              && (fetched.Some? || (old(scheduleEpoch) == Some(li.epoch) && old(scheduleParams).Some?))
              && (prices.Some? || old(Reusable(li)))
      ensures r.None? || old(Reusable(li)) ==>
                && estimate == old(estimate) && computedFrom == old(computedFrom)
                && lastUpdatedVersion == old(lastUpdatedVersion) && lastUpdatedEpoch == old(lastUpdatedEpoch)
      ensures r.Some? && !old(Reusable(li)) ==>
                && lastUpdatedVersion == Some(li.version) && prices == Some(computedFrom)
                && r.value.deprioritized == Max(schedules(li.epoch).minPrice, buckets[0])
                && r.value.prioritized == Min(schedules(li.epoch).maxPrice,
                                              if |buckets| > 1 then buckets[1] else SaturatingAdd(r.value.median, 1))
    {
      var schedule := GetGasSchedule(li, fetched);
      if schedule.None? {
        return None;
      }
      if Fresh(li) {
        return Some(estimate);
      }
      if prices.None? {
        return None;
      }
      Refresh(li, schedule.value, prices.value);
      return Some(estimate);
    }
  }

  method ObservedMedian(prices: seq<Price>) returns (median: Price)
    ensures median == Median(prices)
  {
    if prices == [] {
      return 0;
    }
    var sorted := SortPrices(prices);
    var mid := |sorted| / 2;
    if |sorted| % 2 == 0 {
      var lower, upper := sorted[SaturatingSub(mid, 1)], sorted[mid];
      return SaturatingAdd(upper, lower) / 2;
    }
    return sorted[mid];
  }
}
