/** The two ticks of the perpetual batch: what an accepted funding tick guarantees, whatever path
    the prover takes through the arrays, and what the merge of oracle prices computes. */
module Ticks {
  import opened Felt
  import opened Options
  import opened PerpetualTypes
  import opened Batch

  predicate SortedTick(next: seq<TickIndex>) {
    forall i, j :: 0 <= i < j < |next| ==> next[i].assetId < next[j].assetId
  }

  predicate SortedPrices(prices: seq<OraclePrice>) {
    forall i, j :: 0 <= i < j < |prices| ==> prices[i].assetId < prices[j].assetId
  }

  function FindTick(next: seq<TickIndex>, id: int): Option<int> {
    if next == [] then None
    else if next[0].assetId == id then Some(next[0].fundingIndex)
    else FindTick(next[1..], id)
  }

  lemma {:induction false} FindTickIsFindIndex(next: seq<TickIndex>, id: int)
    ensures FindIndex(ToIndices(next), id) == FindTick(next, id)
  {
    if next != [] {
      assert ToIndices(next)[1..] == ToIndices(next[1..]);
      FindTickIsFindIndex(next[1..], id);
    }
  }

  lemma {:induction false} FindTickWitness(next: seq<TickIndex>, id: int) returns (k: nat)
    requires FindTick(next, id).Some?
    ensures k < |next| && next[k].assetId == id && next[k].fundingIndex == FindTick(next, id).value
  {
    if next[0].assetId == id {
      k := 0;
    } else {
      var j := FindTickWitness(next[1..], id);
      k := j + 1;
    }
  }

  /** One previous index as the tick treats it: still indexed, priced, and moved within the rate. */
  predicate Covered(p: FundingIndex, next: seq<TickIndex>, prices: seq<OraclePrice>, maxRate: int, dt: int) {
    && FindTick(next, p.assetId).Some?
    && FindPrice(prices, p.assetId).Some?
    && RateInRange(maxRate, FindTick(next, p.assetId).value - p.fundingIndex, dt, FindPrice(prices, p.assetId).value)
  }

  predicate AllCovered(prev: seq<FundingIndex>, next: seq<TickIndex>, prices: seq<OraclePrice>, maxRate: int, dt: int) {
    forall i :: 0 <= i < |prev| ==> Covered(prev[i], next, prices, maxRate, dt)
  }

  predicate NewIndicesOk(next: seq<TickIndex>, last: int) {
    && SortedTick(next)
    && forall i :: 0 <= i < |next| ==>
         && last < next[i].assetId < ASSET_ID_UPPER_BOUND
         && FUNDING_INDEX_LOWER_BOUND <= next[i].fundingIndex < FUNDING_INDEX_UPPER_BOUND
  }

  lemma {:induction false} KeepIndexHead(prev: seq<FundingIndex>, next: seq<TickIndex>, prices: seq<OraclePrice>,
                                         maxRate: int, dt: int)
    requires next != [] && NewIndicesOk(next[1..], next[0].assetId)
    requires AllCovered(prev, next[1..], prices, maxRate, dt)
    ensures AllCovered(prev, next, prices, maxRate, dt)
  {
    forall i | 0 <= i < |prev|
      ensures Covered(prev[i], next, prices, maxRate, dt)
    {
      assert Covered(prev[i], next[1..], prices, maxRate, dt);
      var k := FindTickWitness(next[1..], prev[i].assetId);
    }
  }

  lemma {:induction false} KeepPriceHead(prev: seq<FundingIndex>, next: seq<TickIndex>, prices: seq<OraclePrice>,
                                         maxRate: int, dt: int)
    requires prices != [] && SortedPrices(prices)
    requires AllCovered(prev, next, prices[1..], maxRate, dt)
    ensures AllCovered(prev, next, prices, maxRate, dt)
  {
    forall i | 0 <= i < |prev|
      ensures Covered(prev[i], next, prices, maxRate, dt)
    {
      assert Covered(prev[i], next, prices[1..], maxRate, dt);
      var k := FindPriceWitness(prices[1..], prev[i].assetId);
      assert prices[0].assetId < prices[k + 1].assetId;
    }
  }

  lemma {:induction false} ExtendNewIndices(next: seq<TickIndex>, last: int)
    requires next != [] && NewIndicesOk(next[1..], next[0].assetId)
    requires last < next[0].assetId < ASSET_ID_UPPER_BOUND
    requires FUNDING_INDEX_LOWER_BOUND <= next[0].fundingIndex < FUNDING_INDEX_UPPER_BOUND
    ensures NewIndicesOk(next, last)
  {
    assert forall i :: 1 <= i < |next| ==> next[i] == next[1..][i - 1];
  }

  /** An accepted funding tick, under any choices of the prover, has sorted in-range indices that
      cover every previous index, and no index moved faster than the configured rate. */
  lemma {:induction false} TickExact(prev: seq<FundingIndex>, next: seq<TickIndex>, prices: seq<OraclePrice>, last: int,
                                     maxRate: int, dt: int, tape: seq<TickChoice>)
    requires SortedPrices(prices)
    requires ValidateTick(prev, next, prices, last, maxRate, dt, tape).Done?
    ensures NewIndicesOk(next, last) && last < ASSET_ID_UPPER_BOUND
    ensures AllCovered(prev, next, prices, maxRate, dt)
    decreases |tape|
  {
    hide RateInRange;
    match tape[0] {
      case Stop =>
      case AdvancePrice =>
        TickExact(prev, next, prices[1..], last, maxRate, dt, tape[1..]);
        KeepPriceHead(prev, next, prices, maxRate, dt);
      case AdvanceIndex =>
        TickExact(prev, next[1..], prices, next[0].assetId, maxRate, dt, tape[1..]);
        ExtendNewIndices(next, last);
        KeepIndexHead(prev, next, prices, maxRate, dt);
      case MatchAll =>
        TickExact(prev[1..], next[1..], prices[1..], next[0].assetId, maxRate, dt, tape[1..]);
        ExtendNewIndices(next, last);
        KeepPriceHead(prev[1..], next[1..], prices, maxRate, dt);
        KeepIndexHead(prev[1..], next, prices, maxRate, dt);
        assert Covered(prev[0], next, prices, maxRate, dt);
        forall i | 0 <= i < |prev|
          ensures Covered(prev[i], next, prices, maxRate, dt)
        {
          if i > 0 { assert prev[i] == prev[1..][i - 1]; }
        }
    }
  }

  /** The rate check over the integers: an index moves by at most the rate times price and elapsed time. */
  lemma {:induction false} RateExact(maxRate: int, diff: int, dt: int, price: int)
    requires 0 <= maxRate * price * dt < BOUND_250 && Abs(diff) < RC_BOUND
    ensures RateInRange(maxRate, diff, dt, price) <==> Abs(diff) * FXP_32_ONE <= maxRate * price * dt
  {
    var limit := maxRate * price * dt;
    assert limit < BOUND_250;
  }

  /** At the same timestamp the rate bound leaves no room: the index is unchanged. */
  lemma {:induction false} NoTimeNoChange(maxRate: int, diff: int, price: int)
    requires RateInRange(maxRate, diff, 0, price)
    ensures diff == 0
  {
    assert maxRate * price * 0 == 0;
    var x := -(Abs(diff) * FXP_32_ONE);
    assert BOUND_250 - P <= x < P;
  }

  // ---- Which ticks are accepted ----

  /** The prover's choices in validate_funding_tick_inner: whatever is below the next previous index is
      passed by, prices first. */
  function HonestTape(prev: seq<FundingIndex>, next: seq<TickIndex>, prices: seq<OraclePrice>): seq<TickChoice>
    decreases |prev| + |next| + |prices|
  {
    if prices != [] && (prev == [] || prices[0].assetId < prev[0].assetId)
        then [AdvancePrice] + HonestTape(prev, next, prices[1..])
    else if next != [] && (prev == [] || next[0].assetId < prev[0].assetId)
        then [AdvanceIndex] + HonestTape(prev, next[1..], prices)
    else if prev != [] && next != [] && prices != [] then [MatchAll] + HonestTape(prev[1..], next[1..], prices[1..])
    else [Stop]
  }

  lemma {:induction false} DropPrice(prev: seq<FundingIndex>, next: seq<TickIndex>, prices: seq<OraclePrice>,
                                     maxRate: int, dt: int)
    requires AllCovered(prev, next, prices, maxRate, dt) && prices != []
    requires forall i :: 0 <= i < |prev| ==> prev[i].assetId != prices[0].assetId
    ensures AllCovered(prev, next, prices[1..], maxRate, dt)
  {
    hide RateInRange;
    forall i | 0 <= i < |prev|
      ensures Covered(prev[i], next, prices[1..], maxRate, dt)
    {
      assert Covered(prev[i], next, prices, maxRate, dt);
    }
  }

  lemma {:induction false} DropIndex(prev: seq<FundingIndex>, next: seq<TickIndex>, prices: seq<OraclePrice>,
                                     maxRate: int, dt: int)
    requires AllCovered(prev, next, prices, maxRate, dt) && next != []
    requires forall i :: 0 <= i < |prev| ==> prev[i].assetId != next[0].assetId
    ensures AllCovered(prev, next[1..], prices, maxRate, dt)
  {
    hide RateInRange;
    forall i | 0 <= i < |prev|
      ensures Covered(prev[i], next[1..], prices, maxRate, dt)
    {
      assert Covered(prev[i], next, prices, maxRate, dt);
    }
  }

  lemma {:induction false} FirstIsLeast(prev: seq<FundingIndex>)
    requires SortedIndices(prev) && prev != []
    ensures forall i :: 0 <= i < |prev| ==> prev[0].assetId <= prev[i].assetId
    ensures forall i :: 0 <= i < |prev[1..]| ==> prev[0].assetId < prev[1..][i].assetId
    ensures SortedIndices(prev[1..])
  {
  }

  lemma {:induction false} TailCovered(prev: seq<FundingIndex>, next: seq<TickIndex>, prices: seq<OraclePrice>,
                                       maxRate: int, dt: int)
    requires AllCovered(prev, next, prices, maxRate, dt) && prev != []
    ensures AllCovered(prev[1..], next, prices, maxRate, dt) && Covered(prev[0], next, prices, maxRate, dt)
  {
    hide Covered;
  }

  /** With neither array's head below the next previous index, all three heads carry the same id. */
  lemma {:induction false} HeadsMeet(prev: seq<FundingIndex>, next: seq<TickIndex>, prices: seq<OraclePrice>,
                                     last: int, maxRate: int, dt: int)
    requires prev != [] && SortedPrices(prices) && NewIndicesOk(next, last)
             && Covered(prev[0], next, prices, maxRate, dt)
    requires prices == [] || prev[0].assetId <= prices[0].assetId
    requires next == [] || prev[0].assetId <= next[0].assetId
    ensures next != [] && prices != [] && prev[0].assetId == next[0].assetId == prices[0].assetId
    ensures RateInRange(maxRate, next[0].fundingIndex - prev[0].fundingIndex, dt, prices[0].price)
  {
    hide RateInRange;
    var j := FindTickWitness(next, prev[0].assetId);
    var k := FindPriceWitness(prices, prev[0].assetId);
  }

  lemma {:induction false} NewIndexTail(next: seq<TickIndex>, last: int)
    requires NewIndicesOk(next, last) && next != [] && -1 <= last
    ensures NewIndicesOk(next[1..], next[0].assetId) && -1 <= next[0].assetId < ASSET_ID_UPPER_BOUND
    ensures NextId(last, next[0].assetId)
            && IsInRange(next[0].fundingIndex, FUNDING_INDEX_LOWER_BOUND, FUNDING_INDEX_UPPER_BOUND)
  {
  }

  /** The honest walk is accepted whenever the conditions of a valid tick hold. */
  lemma {:induction false} HonestTapeAccepted(prev: seq<FundingIndex>, next: seq<TickIndex>, prices: seq<OraclePrice>,
                                              last: int, maxRate: int, dt: int)
    requires SortedIndices(prev) && SortedPrices(prices) && -1 <= last < ASSET_ID_UPPER_BOUND
    requires NewIndicesOk(next, last) && AllCovered(prev, next, prices, maxRate, dt)
    ensures ValidateTick(prev, next, prices, last, maxRate, dt, HonestTape(prev, next, prices)).Done?
    decreases |prev| + |next| + |prices|
  {
    hide RateInRange, IsInRange, AllCovered, Covered, NextId, NewIndicesOk;
    var tape := HonestTape(prev, next, prices);
    if prev != [] { FirstIsLeast(prev); }
    if prices != [] && (prev == [] || prices[0].assetId < prev[0].assetId) {
      DropPrice(prev, next, prices, maxRate, dt);
      HonestTapeAccepted(prev, next, prices[1..], last, maxRate, dt);
      assert tape[1..] == HonestTape(prev, next, prices[1..]);
    } else if next != [] && (prev == [] || next[0].assetId < prev[0].assetId) {
      DropIndex(prev, next, prices, maxRate, dt);
      NewIndexTail(next, last);
      HonestTapeAccepted(prev, next[1..], prices, next[0].assetId, maxRate, dt);
      assert tape[1..] == HonestTape(prev, next[1..], prices);
    } else if prev != [] {
      TailCovered(prev, next, prices, maxRate, dt);
      HeadsMeet(prev, next, prices, last, maxRate, dt);
      NewIndexTail(next, last);
      DropPrice(prev[1..], next, prices, maxRate, dt);
      DropIndex(prev[1..], next, prices[1..], maxRate, dt);
      HonestTapeAccepted(prev[1..], next[1..], prices[1..], next[0].assetId, maxRate, dt);
      assert tape[1..] == HonestTape(prev[1..], next[1..], prices[1..]);
    }
  }

  /** A funding tick is accepted under some choices of the prover if and only if its indices are sorted
      and in range, cover every previous index, and moved no faster than the configured rate. */
  lemma {:induction false} TickAcceptedExactly(prev: seq<FundingIndex>, next: seq<TickIndex>, prices: seq<OraclePrice>,
                                               maxRate: int, dt: int)
    requires SortedIndices(prev) && SortedPrices(prices)
    ensures (exists tape :: ValidateTick(prev, next, prices, -1, maxRate, dt, tape).Done?) <==>
            NewIndicesOk(next, -1) && AllCovered(prev, next, prices, maxRate, dt)
  {
    hide ValidateTick, NewIndicesOk, AllCovered;
    if tape :| ValidateTick(prev, next, prices, -1, maxRate, dt, tape).Done? {
      TickExact(prev, next, prices, -1, maxRate, dt, tape);
    }
    if NewIndicesOk(next, -1) && AllCovered(prev, next, prices, maxRate, dt) {
      HonestTapeAccepted(prev, next, prices, -1, maxRate, dt);
    }
  }

  // ---- Oracle prices ----

  function FindTickPrice(tick: seq<TickPrice>, id: int): Option<int> {
    if tick == [] then None
    else if tick[0].assetId == id then Some(tick[0].price)
    else FindTickPrice(tick[1..], id)
  }

  predicate BoundedPrices(prices: seq<OraclePrice>) {
    forall i :: 0 <= i < |prices| ==> PRICE_LOWER_BOUND <= prices[i].price < PRICE_UPPER_BOUND
  }

  predicate AllAbove(prices: seq<OraclePrice>, last: int) {
    forall i :: 0 <= i < |prices| ==> last < prices[i].assetId
  }

  lemma {:induction false} FindPriceConcat(a: seq<OraclePrice>, b: seq<OraclePrice>, id: int)
    ensures FindPrice(a + b, id) == if FindPrice(a, id).Some? then FindPrice(a, id) else FindPrice(b, id)
  {
    if a == [] {
      assert a + b == b;
    } else {
      assert (a + b)[1..] == a[1..] + b;
      FindPriceConcat(a[1..], b, id);
    }
  }

  lemma {:induction false} FindPriceAbsent(a: seq<OraclePrice>, id: int)
    requires forall i :: 0 <= i < |a| ==> a[i].assetId != id
    ensures FindPrice(a, id) == None
  {
    if a != [] {
      FindPriceAbsent(a[1..], id);
    }
  }

  lemma {:induction false} JoinPrices(left: seq<OraclePrice>, mid: OraclePrice, right: seq<OraclePrice>, last: int)
    requires ValidPrices(left) && ValidPrices(right) && AllAbove(left, last) && AllAbove(right, mid.assetId)
    requires forall i :: 0 <= i < |left| ==> left[i].assetId < mid.assetId
    requires last < mid.assetId && 0 <= mid.assetId < ASSET_ID_UPPER_BOUND
    requires PRICE_LOWER_BOUND <= mid.price < PRICE_UPPER_BOUND
    ensures ValidPrices(left + [mid] + right) && AllAbove(left + [mid] + right, last)
  {
  }

  lemma {:induction false} SliceOfPrices(prev: seq<OraclePrice>, i: nat, j: nat)
    requires ValidPrices(prev) && i <= j <= |prev|
    ensures ValidPrices(prev[i..j])
  {
  }

  lemma {:induction false} SplitShape(prev: seq<OraclePrice>, id: int)
    requires ValidPrices(prev)
    ensures ValidPrices(PricesBefore(prev, id)) && ValidPrices(PricesAfter(prev, id))
    ensures forall i :: 0 <= i < |PricesBefore(prev, id)| ==>
              PricesBefore(prev, id)[i].assetId < id && PricesBefore(prev, id)[i] in prev
    ensures AllAbove(PricesAfter(prev, id), id)
  {
    var k := PriceLowerBound(prev, id);
    var n := if k < |prev| && prev[k].assetId == id then k + 1 else k;
    SliceOfPrices(prev, 0, k);
    SliceOfPrices(prev, n, |prev|);
    assert PricesBefore(prev, id) == prev[0..k];
    assert PricesAfter(prev, id) == prev[n..|prev|];
    if k < |prev| { AboveLowerBound(prev, id, n); }
  }

  lemma {:induction false} AboveLowerBound(prev: seq<OraclePrice>, id: int, n: nat)
    requires ValidPrices(prev) && PriceLowerBound(prev, id) < |prev|
    requires n == PriceLowerBound(prev, id) + (if prev[PriceLowerBound(prev, id)].assetId == id then 1 else 0)
    ensures AllAbove(prev[n..|prev|], id)
  {
    var k := PriceLowerBound(prev, id);
    forall i | n <= i < |prev|
      ensures id < prev[i].assetId
    {
      if i > k { assert prev[k].assetId < prev[i].assetId; }
    }
  }

  /** How a lookup splits around a tick entry. */
  lemma {:induction false} SplitLookup(prev: seq<OraclePrice>, id: int, x: int)
    requires ValidPrices(prev)
    ensures x != id ==>
              FindPrice(prev, x) ==
              (if FindPrice(PricesBefore(prev, id), x).Some? then FindPrice(PricesBefore(prev, id), x)
               else FindPrice(PricesAfter(prev, id), x))
    ensures id <= x ==> FindPrice(PricesBefore(prev, id), x) == None
  {
    hide ValidPrices;
    var k := PriceLowerBound(prev, id);
    assert prev == prev[..k] + prev[k..];
    FindPriceConcat(prev[..k], prev[k..], x);
    if id <= x { FindPriceAbsent(prev[..k], x); }
    if k < |prev| && prev[k].assetId == id {
      assert prev[k..][1..] == prev[k + 1..];
    }
  }

  /** The lookup in a merged array: before, the tick entry, the rest. */
  lemma {:induction false} MergedLookup(prev: seq<OraclePrice>, mid: OraclePrice, merged: seq<OraclePrice>,
                                        tick: seq<TickPrice>, x: int)
    requires ValidPrices(prev) && tick != [] && mid == OraclePrice(tick[0].assetId, tick[0].price)
    requires forall i :: 1 <= i < |tick| ==> mid.assetId < tick[i].assetId
    requires FindPrice(merged, x) ==
             if FindTickPrice(tick[1..], x).Some? then FindTickPrice(tick[1..], x)
             else FindPrice(PricesAfter(prev, mid.assetId), x)
    ensures FindPrice(PricesBefore(prev, mid.assetId) + [mid] + merged, x) ==
            if FindTickPrice(tick, x).Some? then FindTickPrice(tick, x) else FindPrice(prev, x)
  {
    hide ValidPrices, PricesBefore, PricesAfter;
    var left := PricesBefore(prev, mid.assetId);
    SplitLookup(prev, mid.assetId, x);
    FindPriceConcat(left + [mid], merged, x);
    FindPriceConcat(left, [mid], x);
    if x < mid.assetId { TickPriceAbsent(tick[1..], x); }
  }

  /** create_new_oracle_prices_and_validate_tick: the result is a sorted price array, in bounds,
      that holds the tick's price where there is one and the previous price elsewhere. */
  lemma {:induction false} MergeExact(prev: seq<OraclePrice>, tick: seq<TickPrice>, last: int, cfg: BatchConfig)
    requires ValidPrices(prev) && AllAbove(prev, last) && -1 <= last
    requires BoundedPrices(cfg.minPrices) && BoundedPrices(cfg.maxPrices)
    requires MergePrices(prev, tick, last, cfg).Done?
    ensures ValidPrices(MergePrices(prev, tick, last, cfg).value)
    ensures AllAbove(MergePrices(prev, tick, last, cfg).value, last) && last < ASSET_ID_UPPER_BOUND
    ensures forall i :: 0 <= i < |tick| ==> last < tick[i].assetId
    ensures forall x :: FindPrice(MergePrices(prev, tick, last, cfg).value, x) ==
              if FindTickPrice(tick, x).Some? then FindTickPrice(tick, x) else FindPrice(prev, x)
    decreases |tick|
  {
    if tick == [] {
      assert PriceLowerBound(prev, ASSET_ID_UPPER_BOUND) == |prev|;
      assert prev[..|prev|] == prev;
    } else {
      hide IsInRange, PricesBefore, PricesAfter, ValidPrices;
      var id := tick[0].assetId;
      var rest := PricesAfter(prev, id);
      SplitShape(prev, id);
      var mid := OraclePrice(id, tick[0].price);
      MergeExact(rest, tick[1..], id, cfg);
      var merged := MergePrices(rest, tick[1..], id, cfg).value;
      TickPriceInBounds(tick[0].price, id, cfg);
      forall i | 0 <= i < |PricesBefore(prev, id)|
        ensures last < PricesBefore(prev, id)[i].assetId
      {
        var p := PricesBefore(prev, id)[i];
        var j :| 0 <= j < |prev| && prev[j] == p;
      }
      JoinPrices(PricesBefore(prev, id), mid, merged, last);
      forall x
        ensures FindPrice(PricesBefore(prev, id) + [mid] + merged, x) ==
                if FindTickPrice(tick, x).Some? then FindTickPrice(tick, x) else FindPrice(prev, x)
      {
        MergedLookup(prev, mid, merged, tick, x);
      }
    }
  }

  lemma {:induction false} TickPriceInBounds(price: felt, id: int, cfg: BatchConfig)
    requires BoundedPrices(cfg.minPrices) && BoundedPrices(cfg.maxPrices)
    requires FindPrice(cfg.minPrices, id).Some? && FindPrice(cfg.maxPrices, id).Some?
    requires IsInRange(price, FindPrice(cfg.minPrices, id).value, FindPrice(cfg.maxPrices, id).value + 1)
    ensures PRICE_LOWER_BOUND <= price < PRICE_UPPER_BOUND
  {
    var i := FindPriceWitness(cfg.minPrices, id);
    var j := FindPriceWitness(cfg.maxPrices, id);
  }

  lemma {:induction false} TickPriceAbsent(tick: seq<TickPrice>, x: int)
    requires forall i :: 0 <= i < |tick| ==> tick[i].assetId != x
    ensures FindTickPrice(tick, x) == None
  {
    if tick != [] {
      TickPriceAbsent(tick[1..], x);
    }
  }

  /** The entries of a price tick as the batch admits them: ids that climb and are configured in both
      signed bounds, and prices within them. */
  predicate TickPricesOk(tick: seq<TickPrice>, last: int, cfg: BatchConfig) {
    && (forall i, j :: 0 <= i < j < |tick| ==> tick[i].assetId < tick[j].assetId)
    && forall i :: 0 <= i < |tick| ==>
         && last < tick[i].assetId < ASSET_ID_UPPER_BOUND
         && FindPrice(cfg.minPrices, tick[i].assetId).Some? && FindPrice(cfg.maxPrices, tick[i].assetId).Some?
         && FindPrice(cfg.minPrices, tick[i].assetId).value <= tick[i].price <= FindPrice(cfg.maxPrices,
             tick[i].assetId).value
  }

  lemma {:induction false} PriceRangeExact(price: felt, id: int, cfg: BatchConfig)
    requires BoundedPrices(cfg.minPrices) && BoundedPrices(cfg.maxPrices)
    requires FindPrice(cfg.minPrices, id).Some? && FindPrice(cfg.maxPrices, id).Some?
    ensures var low, high := FindPrice(cfg.minPrices, id).value, FindPrice(cfg.maxPrices, id).value;
      IsInRange(price, low, high + 1) <==> low <= price <= high
  {
    var i := FindPriceWitness(cfg.minPrices, id);
    var j := FindPriceWitness(cfg.maxPrices, id);
  }

  /** A price tick is accepted if and only if its entries are admitted. */
  lemma {:induction false} MergeAcceptedExactly(prev: seq<OraclePrice>, tick: seq<TickPrice>, last: int,
                                                cfg: BatchConfig)
    requires BoundedPrices(cfg.minPrices) && BoundedPrices(cfg.maxPrices) && -1 <= last
    ensures MergePrices(prev, tick, last, cfg).Done? <==> TickPricesOk(tick, last, cfg) && last < ASSET_ID_UPPER_BOUND
    decreases |tick|
  {
    hide PricesBefore, PricesAfter, IsInRange, FindPrice;
    if tick != [] {
      var id := tick[0].assetId;
      TickPricesTail(tick, last, cfg);
      if FindPrice(cfg.minPrices, id).Some? && FindPrice(cfg.maxPrices, id).Some? {
        PriceRangeExact(tick[0].price, id, cfg);
      }
      if -1 <= id { MergeAcceptedExactly(PricesAfter(prev, id), tick[1..], id, cfg); }
    }
  }

  lemma {:induction false} TickPricesTail(tick: seq<TickPrice>, last: int, cfg: BatchConfig)
    requires tick != []
    ensures var id := tick[0].assetId;
      TickPricesOk(tick, last, cfg) <==>
        && last < id < ASSET_ID_UPPER_BOUND && TickPricesOk(tick[1..], id, cfg)
        && FindPrice(cfg.minPrices, id).Some? && FindPrice(cfg.maxPrices, id).Some?
        && FindPrice(cfg.minPrices, id).value <= tick[0].price <= FindPrice(cfg.maxPrices, id).value
  {
    hide FindPrice;
    assert forall i :: 1 <= i < |tick| ==> tick[i] == tick[1..][i - 1];
  }
}
