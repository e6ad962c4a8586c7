/** A concrete run, to show that the hypotheses of the theorems can be met: two positions with
    opposite holdings, one of them insolvent, and the deleverage that closes both. */
module Examples {
  import opened Felt
  import opened Options
  import opened PerpetualTypes
  import opened Funding
  import opened Status
  import opened Transition
  import opened AddAsset
  import opened UpdatePosition
  import MessageHashes
  import opened Batch
  import opened BatchInvariants
  import opened BatchRuns
  import opened Totals

  const ASSET: int := 7
  const RISK_HALF: int := 0x80000000

  const INFO := SyntheticAssetInfo(ASSET, 1, [RiskFactorSegment(RISK_FACTOR_SEGMENT_UPPER_BOUND - 1, RISK_HALF)], [],
                                   1, [])
  const CONFIG := GeneralConfig(0, 1, 1, 9, 99, [INFO], 1000, false)
  const PRICES := [OraclePrice(ASSET, FXP_32_ONE)]
  const FUNDING := FundingInfo([FundingIndex(ASSET, 0)], 0)

  /** Twenty units of debt against ten of an asset that trades at one. */
  const INSOLVENT := Position(11, -20, [PositionAsset(ASSET, 10, 0)], 0)
  const OTHER := Position(12, 100, [PositionAsset(ASSET, -10, 0)], 0)

  const START := State([INSOLVENT, OTHER], map[], FUNDING, PRICES, 0, [], [], [])

  function BatchOf(h: MessageHashes.PairHash, verify: MessageHashes.Verifier): BatchConfig {
    BatchConfig(CONFIG, PRICES, PRICES, 0, h, verify)
  }

  const CLOSE := Deleverage(0, 1, ASSET, 10, 20, true)

  lemma {:induction false} StartIsReady(h: MessageHashes.PairHash, verify: MessageHashes.Verifier)
    ensures Ready(START, BatchOf(h, verify)) && ZeroSum(START)
  {
    forall id
      ensures TotalHolding(START.positions, id) == 0
    {
      var ps := START.positions;
      assert ps[1..] == [OTHER] && ps[1..][1..] == [];
      assert INSOLVENT.assets[1..] == [] && OTHER.assets[1..] == [];
      assert Holding(INSOLVENT.assets, id) + Holding(OTHER.assets, id) == 0;
      assert TotalHolding(ps, id) == Holding(ps[0].assets, id) + TotalHolding(ps[1..], id);
      assert TotalHolding(ps[1..], id) == Holding(OTHER.assets, id);
    }
  }

  /** Nothing is owed, so funding changes no balance. */
  lemma {:induction false} FundedStart()
    ensures ApplyFunding(INSOLVENT, FUNDING) == Done(INSOLVENT) && ApplyFunding(OTHER, FUNDING) == Done(OTHER)
  {
    FundingIdempotent(INSOLVENT, FUNDING);
    FundingIdempotent(OTHER, FUNDING);
  }

  /** The updated positions: the insolvent one is closed, the other keeps its remaining collateral. */
  lemma {:induction false} AssetsClosed()
    ensures AddAssetInner(INSOLVENT.assets, FUNDING.indices, ASSET, -10) == Good([])
    ensures AddAssetInner(OTHER.assets, FUNDING.indices, ASSET, 10) == Good([])
  {
    assert LowerBound(INSOLVENT.assets, ASSET) == 0 && LowerBound(OTHER.assets, ASSET) == 0;
    assert LeftPart(INSOLVENT.assets, ASSET) == [] && RightPart(INSOLVENT.assets, ASSET) == [];
    assert LeftPart(OTHER.assets, ASSET) == [] && RightPart(OTHER.assets, ASSET) == [];
    assert LeftPart(INSOLVENT.assets, ASSET) + RightPart(INSOLVENT.assets, ASSET) == [];
    assert LeftPart(OTHER.assets, ASSET) + RightPart(OTHER.assets, ASSET) == [];
  }

  lemma {:induction false} InsolventStatus()
    ensures GetStatus(INSOLVENT, PRICES, CONFIG)
            == Done(PositionStatus(-10 * FXP_32_ONE, 10 * FXP_32_ONE * RISK_HALF, Success))
  {
    var segments := INFO.segments;
    assert SegmentHint(segments, 10 * FXP_32_ONE) == 0;
    assert GetRiskFactor(segments, false, 10, FXP_32_ONE) == Done(RISK_HALF);
    assert INSOLVENT.assets[1..] == [];
    assert StatusInner(INSOLVENT.assets, PRICES, CONFIG, -20 * FXP_32_ONE, 0)
           == Done((-10 * FXP_32_ONE, 10 * FXP_32_ONE * RISK_HALF));
  }

  lemma {:induction false} ClosedStatus(p: Position)
    requires p.assets == [] && 0 <= p.collateral < 1000
    ensures GetStatus(p, PRICES, CONFIG) == Done(PositionStatus(p.collateral * FXP_32_ONE, 0, Success))
  {
  }

  lemma {:induction false} ClosedIsLegal(p: Position, initial: Position)
    requires p.assets == [] && 0 <= p.collateral < 1000
    ensures CheckValidTransition(p, initial, PRICES, CONFIG) == Done(Success)
  {
    hide GetStatus;
    ClosedStatus(p);
  }

  lemma {:induction false} InsolventUpdated()
    ensures UpdatePosition.Apply(INSOLVENT, 0, 20, ASSET, -10, FUNDING, PRICES, CONFIG)
            == Done(Update(EMPTY_POSITION, INSOLVENT, Success))
  {
    hide ApplyFunding, CheckValidTransition, AddAssetInner;
    FundedStart();
    AssetsClosed();
    ClosedIsLegal(EMPTY_POSITION, INSOLVENT);
  }

  lemma {:induction false} OtherUpdated()
    ensures UpdatePosition.Apply(OTHER, 0, -20, ASSET, 10, FUNDING, PRICES, CONFIG)
            == Done(Update(Position(12, 80, [], 0), OTHER, Success))
  {
    hide ApplyFunding, CheckValidTransition, AddAssetInner;
    FundedStart();
    AssetsClosed();
    ClosedIsLegal(Position(12, 80, [], 0), OTHER);
  }

  /** The deleverage is accepted from a valid zero-sum state and leaves both positions without assets. */
  lemma {:induction false} DeleverageAccepted(h: MessageHashes.PairHash, verify: MessageHashes.Verifier)
    ensures Ready(START, BatchOf(h, verify)) && ZeroSum(START)
    ensures ExecuteTransactions(START, BatchOf(h, verify), [CLOSE]) ==
            Done(START.(positions := [EMPTY_POSITION, Position(12, 80, [], 0)]))
  {
    StartIsReady(h, verify);
    hide UpdatePosition.Apply, GetStatus, ZeroSum, Ready;
    InsolventUpdated();
    OtherUpdated();
    InsolventStatus();
    ClosedStatus(EMPTY_POSITION);
    var cfg := BatchOf(h, verify);
    var mid := START.positions[0 := EMPTY_POSITION];
    assert mid[1] == OTHER && mid[1 := Position(12, 80, [], 0)] == [EMPTY_POSITION, Position(12, 80, [], 0)];
    assert FindAsset(OTHER.assets, ASSET) == Some(OTHER.assets[0]);
    assert ExecuteDeleverage(START, cfg, CLOSE) == Done(START.(positions := [EMPTY_POSITION, Position(12, 80, [], 0)]));
    assert FundingIsFresh(START, cfg);
    assert [CLOSE][1..] == [];
  }

  // ---- A margin purchase ----

  const BUYER := Position(11, 100, [], 0)
  const BOUGHT := Position(11, -4, [PositionAsset(ASSET, 10, 0)], 0)

  lemma {:induction false} BoughtStatus()
    ensures GetStatus(BOUGHT, PRICES, CONFIG)
            == Done(PositionStatus(6 * FXP_32_ONE, 10 * FXP_32_ONE * RISK_HALF, Success))
  {
    var segments := INFO.segments;
    assert SegmentHint(segments, 10 * FXP_32_ONE) == 0;
    assert GetRiskFactor(segments, false, 10, FXP_32_ONE) == Done(RISK_HALF);
    assert BOUGHT.assets[1..] == [];
    assert StatusInner(BOUGHT.assets, PRICES, CONFIG, -4 * FXP_32_ONE, 0)
           == Done((6 * FXP_32_ONE, 10 * FXP_32_ONE * RISK_HALF));
  }

  /** A position may owe collateral: ten units of the asset are bought for 104 out of 100. */
  lemma {:induction false} MarginPurchaseAccepted()
    ensures UpdatePosition.Apply(BUYER, 11, -104, ASSET, 10, FUNDING, PRICES, CONFIG)
            == Done(Update(BOUGHT, BUYER, Success))
  {
    hide ApplyFunding, GetStatus, AddAssetInner;
    FundingIdempotent(BUYER, FUNDING);
    PurchaseAdds();
    BoughtStatus();
    assert CheckValidTransition(BOUGHT, BUYER, PRICES, CONFIG) == Done(Success);
  }

  lemma {:induction false} PurchaseAdds()
    ensures AddAssetInner([], FUNDING.indices, ASSET, 10) == Good(BOUGHT.assets)
  {
    var none: seq<PositionAsset> := [];
    assert LeftPart(none, ASSET) == [] && RightPart(none, ASSET) == [];
    assert LeftPart(none, ASSET) + BOUGHT.assets + RightPart(none, ASSET) == BOUGHT.assets;
  }
}
