/** Totals over all positions: the holding of each asset and the equity of the system. */
module Totals {
  import opened PerpetualTypes
  import opened Funding

  function TotalHolding(ps: seq<Position>, id: int): int {
    if ps == [] then 0 else Holding(ps[0].assets, id) + TotalHolding(ps[1..], id)
  }

  /** Total effective collateral, in .32 fixed point. */
  function TotalEquity(ps: seq<Position>, indices: seq<FundingIndex>): int {
    if ps == [] then 0 else Equity(ps[0], indices) + TotalEquity(ps[1..], indices)
  }

  lemma {:induction false} TotalHoldingUpdate(ps: seq<Position>, i: nat, p: Position, id: int)
    requires i < |ps|
    ensures TotalHolding(ps[i := p], id) == TotalHolding(ps, id) - Holding(ps[i].assets, id) + Holding(p.assets, id)
  {
    if i == 0 {
      assert ps[i := p][1..] == ps[1..];
    } else {
      assert ps[i := p][1..] == ps[1..][i - 1 := p];
      TotalHoldingUpdate(ps[1..], i - 1, p, id);
    }
  }

  lemma {:induction false} TotalEquityUpdate(ps: seq<Position>, i: nat, p: Position, indices: seq<FundingIndex>)
    requires i < |ps|
    ensures TotalEquity(ps[i := p], indices) ==
            TotalEquity(ps, indices) - Equity(ps[i], indices) + Equity(p, indices)
  {
    if i == 0 {
      assert ps[i := p][1..] == ps[1..];
    } else {
      assert ps[i := p][1..] == ps[1..][i - 1 := p];
      TotalEquityUpdate(ps[1..], i - 1, p, indices);
    }
  }

  // ---- A change of the funding indices moves no equity when every asset nets to zero ----

  function Flatten(ps: seq<Position>): seq<PositionAsset> {
    if ps == [] then [] else ps[0].assets + Flatten(ps[1..])
  }

  function TotalCollateral(ps: seq<Position>): int {
    if ps == [] then 0 else ps[0].collateral + TotalCollateral(ps[1..])
  }

  lemma {:induction false} FlattenTotals(ps: seq<Position>, indices: seq<FundingIndex>)
    ensures TotalEquity(ps, indices) == TotalCollateral(ps) * FXP_32_ONE - Deferred(Flatten(ps), indices)
    ensures forall id :: TotalHolding(ps, id) == Holding(Flatten(ps), id)
  {
    if ps != [] {
      FlattenTotals(ps[1..], indices);
      DeferredConcat(ps[0].assets, Flatten(ps[1..]), indices);
      forall id
        ensures TotalHolding(ps, id) == Holding(Flatten(ps), id)
      {
        HoldingConcat(ps[0].assets, Flatten(ps[1..]), id);
      }
    }
  }

  function Without(a: seq<PositionAsset>, id: int): (r: seq<PositionAsset>)
    ensures |r| <= |a|
  {
    if a == [] then []
    else if a[0].assetId == id then Without(a[1..], id)
    else [a[0]] + Without(a[1..], id)
  }

  lemma {:induction false} WithoutHoldings(a: seq<PositionAsset>, id: int, x: int)
    ensures Holding(Without(a, id), x) == if x == id then 0 else Holding(a, x)
  {
    if a != [] {
      WithoutHoldings(a[1..], id, x);
    }
  }

  lemma {:induction false} WithoutDeferred(a: seq<PositionAsset>, id: int, from: seq<FundingIndex>,
                                           to: seq<FundingIndex>)
    ensures Deferred(a, to) - Deferred(a, from) ==
            (IndexOr0(to, id) - IndexOr0(from, id)) * Holding(a, id)
            + Deferred(Without(a, id), to) - Deferred(Without(a, id), from)
  {
    if a != [] {
      WithoutDeferred(a[1..], id, from, to);
      var x, b := a[0].assetId, a[0].balance;
      assert (IndexOr0(to, x) - a[0].cachedFundingIndex) * b - (IndexOr0(from, x) - a[0].cachedFundingIndex) * b
          == (IndexOr0(to, x) - IndexOr0(from, x)) * b;
      var w := IndexOr0(to, id) - IndexOr0(from, id);
      assert w * (b + Holding(a[1..], id)) == w * b + w * Holding(a[1..], id);
    }
  }

  lemma {:induction false} NettedDeferred(a: seq<PositionAsset>, from: seq<FundingIndex>, to: seq<FundingIndex>)
    requires forall id :: Holding(a, id) == 0
    ensures Deferred(a, to) == Deferred(a, from)
    decreases |a|
  {
    if a != [] {
      var id := a[0].assetId;
      forall x
        ensures Holding(Without(a, id), x) == 0
      {
        WithoutHoldings(a, id, x);
      }
      WithoutDeferred(a, id, from, to);
      NettedDeferred(Without(a, id), from, to);
    }
  }

  /** Funding is a transfer between positions: when the balances of every asset sum to zero, moving
      the global indices leaves the total equity where it was, whatever the new indices are. */
  lemma {:induction false} FundingIsATransfer(ps: seq<Position>, from: seq<FundingIndex>, to: seq<FundingIndex>)
    requires forall id :: TotalHolding(ps, id) == 0
    ensures TotalEquity(ps, to) == TotalEquity(ps, from)
  {
    FlattenTotals(ps, from);
    FlattenTotals(ps, to);
    forall id
      ensures Holding(Flatten(ps), id) == 0
    {
      assert TotalHolding(ps, id) == 0;
    }
    NettedDeferred(Flatten(ps), from, to);
  }
}
