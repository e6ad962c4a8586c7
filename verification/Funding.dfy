/** Deferred funding (position/funding.cairo): the funding a position owes is charged when the
    position is next touched, and the charge is rounded down. */
module Funding {
  import opened Felt
  import opened Options
  import opened PerpetualTypes
  import opened Arithmetic

  /** apply_funding_inner: charges every asset and moves its cached index to the global one. */
  function ApplyFundingInner(assets: seq<PositionAsset>, indices: seq<FundingIndex>, collateralFxp: int)
    : Outcome<(int, seq<PositionAsset>)>
  {
    if assets == [] then Done((collateralFxp, []))
    else
      match FindIndex(indices, assets[0].assetId)
      case None => Abort
      case Some(globalIndex) =>
        var delta := (globalIndex - assets[0].cachedFundingIndex) * assets[0].balance;
        var (fxp, after) :- ApplyFundingInner(assets[1..], indices, collateralFxp - delta);
        Done((fxp, [assets[0].(cachedFundingIndex := globalIndex)] + after))
  }

  /** position_apply_funding. */
  function ApplyFunding(p: Position, funding: FundingInfo): Outcome<Position> {
    var (fxp, after) :- ApplyFundingInner(p.assets, funding.indices, p.collateral * FXP_32_ONE);
    var collateral :- SignedDivRem(fxp, FXP_32_ONE, BALANCE_UPPER_BOUND);
    Done(Position(p.publicKey, collateral, after, funding.timestamp))
  }

  // ---- Equity: collateral in .32 fixed point minus the funding not yet charged ----

  function IndexOr0(indices: seq<FundingIndex>, id: int): int {
    match FindIndex(indices, id)
    case None => 0
    case Some(i) => i
  }

  function Deferred(assets: seq<PositionAsset>, indices: seq<FundingIndex>): int {
    if assets == [] then 0
    else
      (IndexOr0(indices, assets[0].assetId) - assets[0].cachedFundingIndex) * assets[0].balance
      + Deferred(assets[1..], indices)
  }

  function Equity(p: Position, indices: seq<FundingIndex>): int {
    p.collateral * FXP_32_ONE - Deferred(p.assets, indices)
  }

  lemma {:induction false} DeferredConcat(a: seq<PositionAsset>, b: seq<PositionAsset>, indices: seq<FundingIndex>)
    ensures Deferred(a + b, indices) == Deferred(a, indices) + Deferred(b, indices)
  {
    if a == [] {
      assert a + b == b;
    } else {
      assert (a + b)[1..] == a[1..] + b;
      DeferredConcat(a[1..], b, indices);
    }
  }

  /** Every cached index equals the global one. */
  predicate UpToDate(assets: seq<PositionAsset>, indices: seq<FundingIndex>) {
    forall i :: 0 <= i < |assets| ==>
      FindIndex(indices, assets[i].assetId) == Some(assets[i].cachedFundingIndex)
  }

  lemma {:induction false} UpToDateOwesNothing(assets: seq<PositionAsset>, indices: seq<FundingIndex>)
    requires UpToDate(assets, indices)
    ensures Deferred(assets, indices) == 0
  {
    if assets != [] {
      UpToDateOwesNothing(assets[1..], indices);
    }
  }

  /** apply_funding_inner charges exactly the deferred funding, keeps ids and balances in order
      and leaves every cached index current. */
  lemma {:induction false} ApplyFundingInnerExact(assets: seq<PositionAsset>, indices: seq<FundingIndex>, fxp: int)
    requires ApplyFundingInner(assets, indices, fxp).Done?
    ensures var (result, after) := ApplyFundingInner(assets, indices, fxp).value;
      && result == fxp - Deferred(assets, indices)
      && |after| == |assets|
      && (forall i :: 0 <= i < |assets| ==>
            && after[i].assetId == assets[i].assetId
            && after[i].balance == assets[i].balance)
      && UpToDate(after, indices)
      && forall id :: Holding(after, id) == Holding(assets, id)
  {
    if assets != [] {
      var g := FindIndex(indices, assets[0].assetId).value;
      var delta := (g - assets[0].cachedFundingIndex) * assets[0].balance;
      ApplyFundingInnerExact(assets[1..], indices, fxp - delta);
      var rest := ApplyFundingInner(assets[1..], indices, fxp - delta).value.1;
      var after := ApplyFundingInner(assets, indices, fxp).value.1;
      assert after == [assets[0].(cachedFundingIndex := g)] + rest;
      assert after[1..] == rest;
      forall i | 0 <= i < |after|
        ensures FindIndex(indices, after[i].assetId) == Some(after[i].cachedFundingIndex)
      {
        if i > 0 { assert after[i] == rest[i - 1]; }
      }
    }
  }

  const DEFERRED_PER_ASSET: int := 0x80000000000000000000000000000000

  /** The deferred funding of a stored position stays far below the field size. */
  lemma {:induction false} DeferredBound(assets: seq<PositionAsset>, indices: seq<FundingIndex>)
    requires ValidIndices(indices)
    requires forall i :: 0 <= i < |assets| ==> ValidAsset(assets[i])
    ensures -|assets| * DEFERRED_PER_ASSET <= Deferred(assets, indices) <= |assets| * DEFERRED_PER_ASSET
  {
    if assets != [] {
      DeferredBound(assets[1..], indices);
      var g := IndexOr0(indices, assets[0].assetId);
      if FindIndex(indices, assets[0].assetId).Some? {
        var k := FindIndexWitness(indices, assets[0].assetId);
      }
      ProductBound(g - assets[0].cachedFundingIndex, assets[0].balance,
                   0x10000000000000000, 0x8000000000000000);
    }
  }

  /** A stored position: what hashing and the state tree keep between transactions. */
  predicate StoredPosition(p: Position) {
    ValidAssets(p.assets) && ValidBalance(p.collateral)
  }

  /** Funding never creates collateral, and each application loses less than one unit. */
  lemma {:induction false} FundingRoundsDown(p: Position, funding: FundingInfo)
    requires StoredPosition(p) && ValidIndices(funding.indices)
    requires ApplyFunding(p, funding).Done?
    ensures var q := ApplyFunding(p, funding).value;
      && 0 <= Equity(p, funding.indices) - Equity(q, funding.indices) < FXP_32_ONE
      && Equity(q, funding.indices) == q.collateral * FXP_32_ONE
      && q.publicKey == p.publicKey
      && q.fundingTimestamp == funding.timestamp
      && StoredPosition(q)
      && UpToDate(q.assets, funding.indices)
      && |q.assets| == |p.assets|
      && (forall i :: 0 <= i < |p.assets| ==>
            && q.assets[i].assetId == p.assets[i].assetId
            && q.assets[i].balance == p.assets[i].balance)
      && (forall id :: Holding(q.assets, id) == Holding(p.assets, id))
      && (p.assets == [] ==> q.collateral == p.collateral)
  {
    var fxp0 := p.collateral * FXP_32_ONE;
    ApplyFundingInnerExact(p.assets, funding.indices, fxp0);
    var (fxp, after) := ApplyFundingInner(p.assets, funding.indices, fxp0).value;
    DeferredBound(p.assets, funding.indices);
    assert Signed(fxp) == fxp;
    UpToDateOwesNothing(after, funding.indices);
    forall i | 0 <= i < |after|
      ensures ValidAsset(after[i])
    {
      assert FindIndex(funding.indices, after[i].assetId) == Some(after[i].cachedFundingIndex);
      var k := FindIndexWitness(funding.indices, after[i].assetId);
    }
  }

  lemma {:induction false} UpToDateFixed(assets: seq<PositionAsset>, indices: seq<FundingIndex>, fxp: int)
    requires UpToDate(assets, indices)
    ensures ApplyFundingInner(assets, indices, fxp) == Done((fxp, assets))
  {
    if assets != [] {
      assert FindIndex(indices, assets[0].assetId) == Some(assets[0].cachedFundingIndex);
      UpToDateFixed(assets[1..], indices, fxp);
      assert assets == [assets[0]] + assets[1..];
    }
  }

  /** Funding is idempotent: a position whose cached indices are current is only re-stamped. */
  lemma {:induction false} FundingIdempotent(p: Position, funding: FundingInfo)
    requires ValidBalance(p.collateral) && UpToDate(p.assets, funding.indices)
    ensures ApplyFunding(p, funding) == Done(p.(fundingTimestamp := funding.timestamp))
  {
    UpToDateFixed(p.assets, funding.indices, p.collateral * FXP_32_ONE);
  }

  /** The fold is available exactly when every asset of the position has a global index. */
  lemma {:induction false} ApplyFundingInnerDefined(assets: seq<PositionAsset>, indices: seq<FundingIndex>, fxp: int)
    ensures ApplyFundingInner(assets, indices, fxp).Done? <==>
            forall i :: 0 <= i < |assets| ==> FindIndex(indices, assets[i].assetId).Some?
  {
    if assets != [] {
      var d := (IndexOr0(indices, assets[0].assetId) - assets[0].cachedFundingIndex) * assets[0].balance;
      ApplyFundingInnerDefined(assets[1..], indices, fxp - d);
      assert forall i :: 1 <= i < |assets| ==> assets[i] == assets[1..][i - 1];
    }
  }

  /** position_apply_funding, over the integers: it is defined exactly when every asset has a global index
      and the equity, rounded down to whole units, is a valid balance; that is the new collateral. */
  lemma {:induction false} ApplyFundingDefined(p: Position, funding: FundingInfo)
    requires StoredPosition(p) && ValidIndices(funding.indices)
    ensures var indexed := forall i :: 0 <= i < |p.assets| ==> FindIndex(funding.indices, p.assets[i].assetId).Some?;
      var rounded := Equity(p, funding.indices) / FXP_32_ONE;
      && (ApplyFunding(p, funding).Done? <==> indexed && ValidBalance(rounded))
      && (ApplyFunding(p, funding).Done? ==> ApplyFunding(p, funding).value.collateral == rounded)
  {
    var fxp0 := p.collateral * FXP_32_ONE;
    ApplyFundingInnerDefined(p.assets, funding.indices, fxp0);
    if ApplyFundingInner(p.assets, funding.indices, fxp0).Done? {
      ApplyFundingInnerExact(p.assets, funding.indices, fxp0);
      DeferredBound(p.assets, funding.indices);
      var fxp := ApplyFundingInner(p.assets, funding.indices, fxp0).value.0;
      assert Signed(fxp) == fxp;
    }
  }
}
