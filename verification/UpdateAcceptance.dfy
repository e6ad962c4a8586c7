/** When update_position accepts (position/update_position.cairo): exactly the requests under a permitted
    key whose holdings are in range and give a legal transition. The conditions speak of balances over
    the integers, not of the way the candidate is built. */
module UpdateAcceptance {
  import opened Felt
  import opened Options
  import opened PerpetualTypes
  import opened Funding
  import opened AddAsset
  import opened Status
  import opened Transition
  import opened UpdatePosition
  import opened SerializeChange

  // ---- The conditions ----

  /** No asset is named and none is changed, or the asset is priced and indexed. */
  predicate Tradable(id: int, delta: int, funding: FundingInfo, prices: seq<OraclePrice>) {
    if id == NO_SYNTHETIC_DELTA_ASSET_ID then delta == 0
    else FindPrice(prices, id).Some? && FindIndex(funding.indices, id).Some?
  }

  /** The request comes from the owner, comes without a key, or is for a free position. */
  predicate KeyAllowed(p: Position, requestKey: int) {
    requestKey == 0 || p.publicKey == 0 || requestKey == p.publicKey
  }

  /** The new holding is a valid balance, and it is no 65th asset. */
  predicate HoldingFits(assets: seq<PositionAsset>, id: int, delta: int) {
    delta != 0 ==>
      && ValidBalance(Holding(assets, id) + delta)
      && (Holding(assets, id) == 0 ==> |assets| < POSITION_MAX_SUPPORTED_N_ASSETS)
  }

  /** q has the requested collateral and holdings. */
  ghost predicate Candidate(q: Position, funded: Position, collateralDelta: int, id: int, delta: int,
                            indices: seq<FundingIndex>)
  {
    && q.collateral == funded.collateral + collateralDelta
    && InRangeAssets(q.assets) && UpToDate(q.assets, indices)
    && forall x :: Holding(q.assets, x) == Holding(funded.assets, x) + (if x == id then delta else 0)
  }

  /** The request reaches the leverage rule. */
  predicate Admissible(p: Position, funded: Position, requestKey: int, collateralDelta: int, id: int, delta: int,
                       funding: FundingInfo, prices: seq<OraclePrice>)
  {
    && Tradable(id, delta, funding, prices)
    && KeyAllowed(p, requestKey)
    && (p.publicKey != 0 || requestKey != 0)
    && ValidBalance(funded.collateral + collateralDelta)
    && HoldingFits(funded.assets, id, delta)
  }

  /** The requested balances are a legal transition. */
  ghost predicate LegalCandidate(funded: Position, collateralDelta: int, id: int, delta: int,
                                 indices: seq<FundingIndex>, prices: seq<OraclePrice>, config: GeneralConfig)
    requires ValidMarket(prices, config)
  {
    exists q :: Candidate(q, funded, collateralDelta, id, delta, indices) && LegalTransition(q, funded, prices, config)
  }

  /** The request is to be accepted: it changes nothing for nobody, or it is admissible and its
      candidate is a legal transition from the funded position. */
  ghost predicate Acceptable(p: Position, requestKey: int, collateralDelta: int, id: int, delta: int,
                             funding: FundingInfo, prices: seq<OraclePrice>, config: GeneralConfig)
    requires ValidMarket(prices, config)
  {
    && ApplyFunding(p, funding).Done?
    && var funded := ApplyFunding(p, funding).value;
    if requestKey == 0 && p.publicKey == 0 then
      Tradable(id, delta, funding, prices) && collateralDelta == 0 && delta == 0
    else
      && Admissible(p, funded, requestKey, collateralDelta, id, delta, funding, prices)
      && LegalCandidate(funded, collateralDelta, id, delta, funding.indices, prices, config)
  }

  /** Both positions of a transition can be evaluated as far as the leverage rule needs them. */
  ghost predicate TransitionEvaluable(q: Position, funded: Position, prices: seq<OraclePrice>, config: GeneralConfig)
    requires ValidMarket(prices, config)
  {
    && AllEvaluable(q.assets, prices, config)
    && (StatusInRange(q, prices, config) && !WellLeveraged(q, prices, config) ==>
          AllEvaluable(funded.assets, prices, config))
  }

  ghost predicate EvaluableCandidate(funded: Position, collateralDelta: int, id: int, delta: int,
                                     indices: seq<FundingIndex>, prices: seq<OraclePrice>, config: GeneralConfig)
    requires ValidMarket(prices, config)
  {
    exists q ::
      Candidate(q, funded, collateralDelta, id, delta, indices) && TransitionEvaluable(q, funded, prices, config)
  }

  /** The request is answered at all, by acceptance or by a return code. */
  ghost predicate Answered(p: Position, requestKey: int, collateralDelta: int, id: int, delta: int,
                           funding: FundingInfo, prices: seq<OraclePrice>, config: GeneralConfig)
    requires ValidMarket(prices, config)
  {
    && ApplyFunding(p, funding).Done?
    && (id == NO_SYNTHETIC_DELTA_ASSET_ID ==> delta == 0)
    && var funded := ApplyFunding(p, funding).value;
    Admissible(p, funded, requestKey, collateralDelta, id, delta, funding, prices) ==>
      EvaluableCandidate(funded, collateralDelta, id, delta, funding.indices, prices, config)
  }

  // ---- The candidate ----

  /** Holdings and indices determine the assets, so there is one candidate up to its key. */
  lemma {:induction false} CandidateUnique(q: Position, r: Position, funded: Position, collateralDelta: int, id: int,
                                           delta: int, indices: seq<FundingIndex>)
    requires Candidate(q, funded, collateralDelta, id, delta, indices)
    requires Candidate(r, funded, collateralDelta, id, delta, indices)
    ensures q.collateral == r.collateral && q.assets == r.assets
  {
    SameHoldings(q.assets, r.assets);
    forall i | 0 <= i < |q.assets|
      ensures q.assets[i] == r.assets[i]
    {
      assert FindIndex(indices, q.assets[i].assetId) == Some(q.assets[i].cachedFundingIndex);
      assert FindIndex(indices, r.assets[i].assetId) == Some(r.assets[i].cachedFundingIndex);
    }
  }

  /** The candidate can be built exactly when both balances fit. */
  lemma {:induction false} BuiltExactly(funded: Position, publicKey: int, collateralDelta: felt, id: int, delta: felt,
                                        funding: FundingInfo)
    requires StoredPosition(funded) && UpToDate(funded.assets, funding.indices) && ValidIndices(funding.indices)
    requires delta != 0 ==> FindIndex(funding.indices, id).Some?
    ensures var p1 := PositionAddCollateral(funded, collateralDelta, publicKey);
      && (p1.Good? <==> ValidBalance(funded.collateral + collateralDelta))
      && (p1.Good? ==>
            var p2 := PositionAddAsset(p1.value, funding.indices, id, delta, publicKey);
            && (p2.Good? <==> HoldingFits(funded.assets, id, delta))
            && (p2.Good? ==>
                  Candidate(p2.value, funded, collateralDelta, id, delta, funding.indices)
                  && p2.value.publicKey == publicKey))
  {
    var p1 := PositionAddCollateral(funded, collateralDelta, publicKey);
    if p1.Good? {
      hide AddAssetInner, Holding;
      if delta != 0 {
        AddAssetInnerExact(funded.assets, funding.indices, id, delta);
        PositionAddAssetExact(p1.value, funding.indices, id, delta, publicKey);
        HeldIsFound(funded.assets, id);
      }
      if PositionAddAsset(p1.value, funding.indices, id, delta, publicKey).Good? {
        CandidateShape(funded, publicKey, collateralDelta, id, delta, funding);
      }
    }
  }

  lemma {:induction false} RefusalIsReported(p: Position, indices: seq<FundingIndex>, id: int, delta: int,
                                             publicKey: int)
    ensures var r := PositionAddAsset(p, indices, id, delta, publicKey);
      r.Bad? ==> r.code != Success
  {
    hide LowerBound, Found, CheckValidBalance, LeftPart, RightPart;
  }

  lemma {:induction false} HeldIsFound(assets: seq<PositionAsset>, id: int)
    requires ValidAssets(assets)
    ensures FindAsset(assets, id).Some? <==> Holding(assets, id) != 0
  {
    hide Holding, FindAsset;
    FoundIsHeld(assets, id);
  }

  // ---- The leverage rule on the candidate ----

  /** check_valid_transition is answered exactly when it can evaluate what it looks at. */
  lemma {:induction false} TransitionAnswered(q: Position, funded: Position, prices: seq<OraclePrice>,
                                              config: GeneralConfig)
    requires ValidMarket(prices, config)
    requires InRangeAssets(q.assets) && ValidBalance(q.collateral)
    requires InRangeAssets(funded.assets) && ValidBalance(funded.collateral)
    ensures CheckValidTransition(q, funded, prices, config).Done? <==> TransitionEvaluable(q, funded, prices, config)
  {
    hide CheckSmaller, IsLeFelt, GetStatus, Value, Risk;
    StatusExact(q, prices, config);
    StatusExact(funded, prices, config);
    if StatusInRange(q, prices, config) {
      RiskBound(q.assets, prices, config);
      LeverageComparison(Value(q, prices, config), Risk(q.assets, prices, config));
    }
  }

  /** The leverage rule sees collateral and assets of the updated position only. */
  lemma {:induction false} RuleIgnoresKey(q: Position, r: Position, funded: Position, prices: seq<OraclePrice>,
                                          config: GeneralConfig)
    requires ValidMarket(prices, config) && q.collateral == r.collateral && q.assets == r.assets
    ensures LegalTransition(q, funded, prices, config) <==> LegalTransition(r, funded, prices, config)
    ensures TransitionEvaluable(q, funded, prices, config) <==> TransitionEvaluable(r, funded, prices, config)
  {
  }

  lemma {:induction false} TheCandidate(q: Position, funded: Position, collateralDelta: int, id: int, delta: int,
                                        indices: seq<FundingIndex>, prices: seq<OraclePrice>, config: GeneralConfig)
    requires ValidMarket(prices, config) && Candidate(q, funded, collateralDelta, id, delta, indices)
    ensures LegalCandidate(funded, collateralDelta, id, delta, indices, prices, config) <==>
            LegalTransition(q, funded, prices, config)
    ensures EvaluableCandidate(funded, collateralDelta, id, delta, indices, prices, config) <==>
            TransitionEvaluable(q, funded, prices, config)
  {
    hide Candidate, LegalTransition, TransitionEvaluable;
    forall r | Candidate(r, funded, collateralDelta, id, delta, indices)
      ensures LegalTransition(r, funded, prices, config) <==> LegalTransition(q, funded, prices, config)
      ensures TransitionEvaluable(r, funded, prices, config) <==> TransitionEvaluable(q, funded, prices, config)
    {
      CandidateUnique(q, r, funded, collateralDelta, id, delta, indices);
      RuleIgnoresKey(q, r, funded, prices, config);
    }
  }

  /** The part of update_position after the public key is settled. */
  lemma {:induction false} ChangeAcceptedExactly(funded: Position, publicKey: int, collateralDelta: felt, id: int,
                                                 delta: felt, funding: FundingInfo, prices: seq<OraclePrice>,
                                                 config: GeneralConfig)
    requires StoredPosition(funded) && UpToDate(funded.assets, funding.indices) && publicKey != 0
    requires ValidIndices(funding.indices) && ValidMarket(prices, config)
    requires Tradable(id, delta, funding, prices)
    ensures var u := ChangeFunded(funded, publicKey, collateralDelta, id, delta, funding, prices, config);
      var fits := ValidBalance(funded.collateral + collateralDelta) && HoldingFits(funded.assets, id, delta);
      && (u.Done? && u.value.code == Success <==>
            fits && LegalCandidate(funded, collateralDelta, id, delta, funding.indices, prices, config))
      && (u.Done? <==>
            (fits ==> EvaluableCandidate(funded, collateralDelta, id, delta, funding.indices, prices, config)))
  {
    hide PositionAddAsset, CheckValidTransition, LegalTransition, TransitionEvaluable, Candidate, HoldingFits, Holding,
      LegalCandidate, EvaluableCandidate;
    BuiltExactly(funded, publicKey, collateralDelta, id, delta, funding);
    RefusalIsReported(funded.(publicKey := publicKey, collateral := funded.collateral + collateralDelta),
                      funding.indices, id, delta, publicKey);
    if ValidBalance(funded.collateral + collateralDelta) && HoldingFits(funded.assets, id, delta) {
      var p1 := PositionAddCollateral(funded, collateralDelta, publicKey).value;
      var p2 := PositionAddAsset(p1, funding.indices, id, delta, publicKey).value;
      var final := CreateMaybeEmptyPosition(p2).value;
      CandidateInRange(p2, funded, collateralDelta, id, delta, funding.indices);
      TransitionExact(final, funded, prices, config);
      TransitionAnswered(final, funded, prices, config);
      RuleIgnoresKey(p2, final, funded, prices, config);
      TheCandidate(p2, funded, collateralDelta, id, delta, funding.indices, prices, config);
    }
  }

  lemma {:induction false} CandidateInRange(q: Position, funded: Position, collateralDelta: int, id: int, delta: int,
                                            indices: seq<FundingIndex>)
    requires Candidate(q, funded, collateralDelta, id, delta, indices)
    ensures InRangeAssets(q.assets) && q.collateral == funded.collateral + collateralDelta
  {
  }

  // ---- update_position ----

  /** update_position reports success if and only if the request is acceptable, and answers at all if and
      only if it can evaluate what the leverage rule looks at. */
  lemma {:induction false} AcceptedExactly(p: Position, requestKey: int, collateralDelta: felt, id: int, delta: felt,
                                           funding: FundingInfo, prices: seq<OraclePrice>, config: GeneralConfig)
    requires ValidPosition(p) && ValidIndices(funding.indices) && ValidMarket(prices, config)
    ensures var u := UpdatePosition.Apply(p, requestKey, collateralDelta, id, delta, funding, prices, config);
      && (u.Done? && u.value.code == Success <==>
            Acceptable(p, requestKey, collateralDelta, id, delta, funding, prices, config))
      && (u.Done? <==> Answered(p, requestKey, collateralDelta, id, delta, funding, prices, config))
  {
    hide ApplyFunding, ChangeFunded, LegalCandidate, EvaluableCandidate, HoldingFits;
    if ApplyFunding(p, funding).Done? {
      FundingRoundsDown(p, funding);
      var funded := ApplyFunding(p, funding).value;
      var key := if requestKey == 0 then p.publicKey else requestKey;
      if key != 0 && Tradable(id, delta, funding, prices) {
        ChangeAcceptedExactly(funded, key, collateralDelta, id, delta, funding, prices, config);
      }
    }
  }

  // ---- Which requests are answered ----

  /** Without a synthetic delta the candidate is the funded position with the new collateral. */
  lemma {:induction false} CandidateWithoutTrade(funded: Position, collateralDelta: int, id: int, funding: FundingInfo)
    requires StoredPosition(funded) && UpToDate(funded.assets, funding.indices)
    ensures Candidate(funded.(collateral := funded.collateral + collateralDelta), funded, collateralDelta, id, 0,
                      funding.indices)
  {
  }

  /** A request to move collateral is acceptable if and only if its key is permitted, the new collateral is a
      valid balance and gives a legal transition. */
  lemma {:induction false} CollateralAcceptable(p: Position, requestKey: int, collateralDelta: int,
                                                funding: FundingInfo, prices: seq<OraclePrice>, config: GeneralConfig)
    requires ValidPosition(p) && ValidIndices(funding.indices) && ValidMarket(prices, config)
    requires p.publicKey != 0 || requestKey != 0
    ensures Acceptable(p, requestKey, collateralDelta, NO_SYNTHETIC_DELTA_ASSET_ID, 0, funding, prices, config) <==>
            && ApplyFunding(p, funding).Done?
            && var funded := ApplyFunding(p, funding).value;
            var after := funded.collateral + collateralDelta;
            && KeyAllowed(p, requestKey) && ValidBalance(after)
            && LegalTransition(funded.(collateral := after), funded, prices, config)
  {
    hide ApplyFunding, LegalTransition, Candidate, LegalCandidate;
    if ApplyFunding(p, funding).Done? {
      FundingRoundsDown(p, funding);
      var funded := ApplyFunding(p, funding).value;
      CandidateWithoutTrade(funded, collateralDelta, NO_SYNTHETIC_DELTA_ASSET_ID, funding);
      TheCandidate(funded.(collateral := funded.collateral + collateralDelta), funded, collateralDelta,
                   NO_SYNTHETIC_DELTA_ASSET_ID, 0, funding.indices, prices, config);
    }
  }

  /** Funding changes neither ids nor balances, so what is evaluable stays so. */
  lemma {:induction false} FundedEvaluable(p: Position, funding: FundingInfo, prices: seq<OraclePrice>,
                                           config: GeneralConfig)
    requires ValidPosition(p) && ValidIndices(funding.indices) && ApplyFunding(p, funding).Done?
    ensures AllEvaluable(ApplyFunding(p, funding).value.assets, prices, config) <==>
            AllEvaluable(p.assets, prices, config)
  {
    hide ApplyFunding;
    FundingRoundsDown(p, funding);
    var q := ApplyFunding(p, funding).value;
    assert forall i :: 0 <= i < |p.assets| ==>
        (Evaluable(q.assets[i], prices, config) <==> Evaluable(p.assets[i], prices, config));
  }

  /** Every asset of the candidate can be evaluated when those of the funded position can, the traded asset
      is configured, and it does not end at -2^63. */
  lemma {:induction false} CandidateEvaluable(q: Position, funded: Position, collateralDelta: int, id: int, delta: int,
                                              indices: seq<FundingIndex>, prices: seq<OraclePrice>,
                                              config: GeneralConfig)
    requires Candidate(q, funded, collateralDelta, id, delta, indices) && ValidAssets(funded.assets)
    requires AllEvaluable(funded.assets, prices, config)
    requires delta != 0 ==> FindPrice(prices, id).Some? && FindInfo(config.infos, id).Some?
    ensures AllEvaluable(q.assets, prices, config) <==>
            delta == 0 || Holding(funded.assets, id) + delta != BALANCE_LOWER_BOUND
  {
    forall i | 0 <= i < |q.assets|
      ensures q.assets[i].assetId != id || delta == 0 ==> Evaluable(q.assets[i], prices, config)
      ensures q.assets[i].assetId == id ==> q.assets[i].balance == Holding(funded.assets, id) + delta
    {
      HoldingAt(q.assets, i);
      var held := Holding(funded.assets, q.assets[i].assetId);
      assert q.assets[i].balance == held + if q.assets[i].assetId == id then delta else 0;
      if q.assets[i].assetId != id || delta == 0 {
        var k := HeldAt(funded.assets, q.assets[i].assetId);
        assert Evaluable(funded.assets[k], prices, config);
      }
    }
    if delta != 0 && Holding(funded.assets, id) + delta == BALANCE_LOWER_BOUND {
      var k := HeldAt(q.assets, id);
      assert !Evaluable(q.assets[k], prices, config);
    }
  }

  lemma {:induction false} HeldAt(assets: seq<PositionAsset>, id: int) returns (k: nat)
    requires SortedAssets(assets) && Holding(assets, id) != 0
    ensures k < |assets| && assets[k].assetId == id && assets[k].balance == Holding(assets, id)
  {
    if i :| 0 <= i < |assets| && assets[i].assetId == id {
      HoldingAt(assets, i);
      k := i;
    } else {
      HoldingAbsent(assets, id);
    }
  }

  /** A request on a position that can be funded and evaluated is answered, unless it is admissible and its
      holding ends at -2^63: check_valid_balance admits that balance, get_risk_factor does not. */
  lemma {:induction false} AnsweredExactly(p: Position, requestKey: int, collateralDelta: int, id: int, delta: int,
                                           funding: FundingInfo, prices: seq<OraclePrice>, config: GeneralConfig)
    requires ValidPosition(p) && ValidIndices(funding.indices) && ValidMarket(prices, config)
    requires ApplyFunding(p, funding).Done? && AllEvaluable(p.assets, prices, config)
    requires if id == NO_SYNTHETIC_DELTA_ASSET_ID then delta == 0 else FindInfo(config.infos, id).Some?
    requires -HALF <= collateralDelta <= HALF && -HALF <= delta <= HALF
    ensures Answered(p, requestKey, collateralDelta, id, delta, funding, prices, config) <==>
            !(&& Admissible(p, ApplyFunding(p, funding).value, requestKey, collateralDelta, id, delta, funding, prices)
              && delta != 0 && Holding(p.assets, id) + delta == BALANCE_LOWER_BOUND)
  {
    hide ApplyFunding, Candidate, EvaluableCandidate, HoldingFits, TransitionEvaluable, AllEvaluable;
    FundingRoundsDown(p, funding);
    FundedEvaluable(p, funding, prices, config);
    var funded := ApplyFunding(p, funding).value;
    if Admissible(p, funded, requestKey, collateralDelta, id, delta, funding, prices) {
      var q := BuiltCandidate(funded, collateralDelta, id, delta, funding);
      TheCandidate(q, funded, collateralDelta, id, delta, funding.indices, prices, config);
      CandidateEvaluable(q, funded, collateralDelta, id, delta, funding.indices, prices, config);
      EvaluableTransition(q, funded, prices, config);
    }
  }

  lemma {:induction false} EvaluableTransition(q: Position, funded: Position, prices: seq<OraclePrice>,
                                               config: GeneralConfig)
    requires ValidMarket(prices, config) && AllEvaluable(funded.assets, prices, config)
    ensures TransitionEvaluable(q, funded, prices, config) <==> AllEvaluable(q.assets, prices, config)
  {
    hide StatusInRange, WellLeveraged;
  }

  lemma {:induction false} BuiltCandidate(funded: Position, collateralDelta: felt, id: int, delta: felt,
                                          funding: FundingInfo) returns (q: Position)
    requires StoredPosition(funded) && UpToDate(funded.assets, funding.indices) && ValidIndices(funding.indices)
    requires delta != 0 ==> FindIndex(funding.indices, id).Some?
    requires ValidBalance(funded.collateral + collateralDelta) && HoldingFits(funded.assets, id, delta)
    ensures Candidate(q, funded, collateralDelta, id, delta, funding.indices)
  {
    hide HoldingFits, Candidate, PositionAddAsset;
    BuiltExactly(funded, 1, collateralDelta, id, delta, funding);
    q := PositionAddAsset(PositionAddCollateral(funded, collateralDelta, 1).value, funding.indices, id, delta, 1).value;
  }
}
