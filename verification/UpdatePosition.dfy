/** The step every transaction is made of (position/update_position.cairo): apply funding, add
    collateral, add a synthetic delta, normalise an empty position, test the leverage rule. */
module UpdatePosition {
  import opened Felt
  import opened Options
  import opened PerpetualTypes
  import opened Funding
  import opened AddAsset
  import opened Status
  import opened Transition
  import opened Arithmetic

  /** is_asset_id_tradable. */
  function IsAssetIdTradable(id: int, delta: int, funding: FundingInfo, prices: seq<OraclePrice>): Outcome<ErrorCode> {
    if id == NO_SYNTHETIC_DELTA_ASSET_ID then
      var _ :- Require(delta == 0);
      Done(Success)
    else if FindPrice(prices, id).None? then Done(MissingOraclePrice)
    else if FindIndex(funding.indices, id).None? then Done(MissingGlobalFundingIndex)
    else Done(Success)
  }

  /** check_request_public_key. */
  function CheckRequestPublicKey(positionKey: int, requestKey: int): ErrorCode {
    if requestKey == 0 then InvalidPublicKey
    else if positionKey == 0 || positionKey == requestKey then Success
    else InvalidPublicKey
  }

  /** position_add_collateral. */
  function PositionAddCollateral(p: Position, delta: int, publicKey: int): Checked<Position> {
    if CheckValidBalance(p.collateral + delta) then
      Good(Position(publicKey, p.collateral + delta, p.assets, p.fundingTimestamp))
    else Bad(OutOfRangeBalance)
  }

  /** create_maybe_empty_position. */
  function CreateMaybeEmptyPosition(p: Position): Outcome<Position> {
    var _ :- Require(p.publicKey != 0);
    Done(if p.collateral != 0 || p.assets != [] then p else EMPTY_POSITION)
  }

  datatype Update = Update(updated: Position, funded: Position, code: ErrorCode)

  /** The part of update_position after the public key is settled. */
  function ChangeFunded(funded: Position, publicKey: int, collateralDelta: int, assetId: int, syntheticDelta: int,
                        funding: FundingInfo, prices: seq<OraclePrice>, config: GeneralConfig): Outcome<Update>
  {
    match PositionAddCollateral(funded, collateralDelta, publicKey)
    case Bad(code) => Done(Update(funded, funded, code))
    case Good(p1) =>
      match PositionAddAsset(p1, funding.indices, assetId, syntheticDelta, publicKey)
      case Bad(code) => Done(Update(funded, funded, code))
      case Good(p2) =>
        var final :- CreateMaybeEmptyPosition(p2);
        var code :- CheckValidTransition(final, funded, prices, config);
        Done(Update(if code == Success then final else funded, funded, code))
  }

  /** update_position. */
  function Apply(p: Position, requestKey: int, collateralDelta: int, assetId: int, syntheticDelta: int,
                 funding: FundingInfo, prices: seq<OraclePrice>, config: GeneralConfig): Outcome<Update>
  {
    var funded :- ApplyFunding(p, funding);
    var tradable :- IsAssetIdTradable(assetId, syntheticDelta, funding, prices);
    if tradable != Success then Done(Update(funded, funded, tradable))
    else if requestKey == 0 then
      if p.publicKey == 0 then
        Done(Update(funded, funded, if syntheticDelta != 0 || collateralDelta != 0 then InvalidPublicKey else Success))
      else ChangeFunded(funded, p.publicKey, collateralDelta, assetId, syntheticDelta, funding, prices, config)
    else
      var code := CheckRequestPublicKey(p.publicKey, requestKey);
      if code != Success then Done(Update(funded, funded, code))
      else ChangeFunded(funded, requestKey, collateralDelta, assetId, syntheticDelta, funding, prices, config)
  }

  // ---- The invariant of stored positions ----

  /** What every position in the state satisfies: sorted non-zero balances above -2^63 in at most
      64 assets, a key that is zero exactly for the empty position, and no debt without assets. */
  predicate ValidPosition(p: Position) {
    && StoredPosition(p)
    && (p.publicKey == 0 <==> p.collateral == 0 && p.assets == [])
    && (p.assets == [] ==> p.collateral >= 0)
  }

  /** The cached indices of `p` are the global ones of the moment `p` was last touched. */
  predicate Stamped(p: Position, funding: FundingInfo) {
    UpToDate(p.assets, funding.indices) && (p.fundingTimestamp == funding.timestamp || p == EMPTY_POSITION)
  }

  /** A legal transition from a position that owes nothing without assets ends in one. */
  lemma {:induction false} LegalKeepsSolvency(updated: Position, initial: Position, prices: seq<OraclePrice>,
                                              config: GeneralConfig)
    requires ValidMarket(prices, config)
    requires InRangeAssets(updated.assets) && InRangeAssets(initial.assets)
    requires LegalTransition(updated, initial, prices, config)
    requires initial.assets == [] ==> initial.collateral >= 0
    ensures updated.assets == [] ==> updated.collateral >= 0
  {
    if updated.assets == [] && !WellLeveraged(updated, prices, config) {
      RiskBound(initial.assets, prices, config);
      var tv1, tr0 := Value(updated, prices, config), Risk(initial.assets, prices, config);
      assert Value(initial, prices, config) * 0 == 0;
      if tr0 > 0 { CancelPositive(0, tv1, tr0); }
    }
  }

  /** The candidate built from a funded position by the collateral and synthetic deltas. */
  lemma {:induction false} CandidateShape(funded: Position, publicKey: int, collateralDelta: felt, assetId: int,
                                          syntheticDelta: felt, funding: FundingInfo)
    requires StoredPosition(funded) && UpToDate(funded.assets, funding.indices) && ValidIndices(funding.indices)
    requires PositionAddCollateral(funded, collateralDelta, publicKey).Good?
    requires PositionAddAsset(PositionAddCollateral(funded, collateralDelta, publicKey).value, funding.indices,
                              assetId, syntheticDelta, publicKey).Good?
    ensures var q := PositionAddAsset(PositionAddCollateral(funded, collateralDelta, publicKey).value,
                                      funding.indices, assetId, syntheticDelta, publicKey).value;
      && q.publicKey == publicKey
      && q.collateral == funded.collateral + collateralDelta
      && ValidBalance(q.collateral)
      && q.fundingTimestamp == funded.fundingTimestamp
      && InRangeAssets(q.assets)
      && UpToDate(q.assets, funding.indices)
      && forall x :: Holding(q.assets, x) == Holding(funded.assets, x) + (if x == assetId then syntheticDelta else 0)
  {
    if syntheticDelta != 0 {
      AddAssetInnerExact(funded.assets, funding.indices, assetId, syntheticDelta);
      var r := AddAssetInner(funded.assets, funding.indices, assetId, syntheticDelta).value;
      NewIndexIsGlobal(funded.assets, funding.indices, assetId, syntheticDelta);
      forall i | 0 <= i < |r|
        ensures FindIndex(funding.indices, r[i].assetId) == Some(r[i].cachedFundingIndex)
      {
        if r[i] in funded.assets {
          var j :| 0 <= j < |funded.assets| && funded.assets[j] == r[i];
        }
      }
    }
  }

  /** After funding, the index a changed asset starts from is the global one. */
  lemma {:induction false} NewIndexIsGlobal(assets: seq<PositionAsset>, indices: seq<FundingIndex>, id: int,
                                            delta: felt)
    requires InRangeAssets(assets) && UpToDate(assets, indices)
    requires AddAssetInner(assets, indices, id, delta).Good?
    ensures FindIndex(indices, id) == Some(StartIndex(assets, indices, id))
  {
    AddAssetInnerExact(assets, indices, id, delta);
    FoundIsHeld(assets, id);
  }

  lemma {:induction false} CurrentAssetsAreValid(assets: seq<PositionAsset>, funding: FundingInfo,
                                                 prices: seq<OraclePrice>, config: GeneralConfig)
    requires InRangeAssets(assets) && UpToDate(assets, funding.indices) && ValidIndices(funding.indices)
    requires AllEvaluable(assets, prices, config)
    ensures ValidAssets(assets)
  {
    forall i | 0 <= i < |assets|
      ensures ValidAsset(assets[i])
    {
      assert FindIndex(funding.indices, assets[i].assetId) == Some(assets[i].cachedFundingIndex);
      var k := FindIndexWitness(funding.indices, assets[i].assetId);
    }
  }

  /** What an accepted change of a funded position does. */
  lemma {:induction false} ChangeFundedExact(funded: Position, publicKey: int, collateralDelta: felt, assetId: int,
                                             syntheticDelta: felt, funding: FundingInfo, prices: seq<OraclePrice>,
                                             config: GeneralConfig)
    requires StoredPosition(funded) && UpToDate(funded.assets, funding.indices)
    requires funded.fundingTimestamp == funding.timestamp
    requires funded.assets == [] ==> funded.collateral >= 0
    requires publicKey != 0 && ValidIndices(funding.indices) && ValidMarket(prices, config)
    requires ChangeFunded(funded, publicKey, collateralDelta, assetId, syntheticDelta, funding, prices, config).Done?
    ensures var u := ChangeFunded(funded, publicKey, collateralDelta, assetId, syntheticDelta, funding, prices,
                                  config).value;
      && u.funded == funded
      && (u.code != Success ==> u.updated == funded)
      && (u.code == Success ==>
            && ValidPosition(u.updated)
            && Stamped(u.updated, funding)
            && u.updated.collateral == funded.collateral + collateralDelta
            && (u.updated.publicKey == publicKey || u.updated == EMPTY_POSITION)
            && (forall x :: Holding(u.updated.assets, x) ==
                            Holding(funded.assets, x) + (if x == assetId then syntheticDelta else 0))
            && LegalTransition(u.updated, funded, prices, config))
  {
    var u := ChangeFunded(funded, publicKey, collateralDelta, assetId, syntheticDelta, funding, prices, config).value;
    if u.code == Success {
      var p1 := PositionAddCollateral(funded, collateralDelta, publicKey).value;
      var p2 := PositionAddAsset(p1, funding.indices, assetId, syntheticDelta, publicKey).value;
      CandidateShape(funded, publicKey, collateralDelta, assetId, syntheticDelta, funding);
      var final := CreateMaybeEmptyPosition(p2).value;
      TransitionExact(final, funded, prices, config);
      CurrentAssetsAreValid(final.assets, funding, prices, config);
      LegalKeepsSolvency(final, funded, prices, config);
    }
  }

  /** update_position keeps the position invariant, whether it succeeds or reports a code. On
      success the balances move by exactly the requested deltas; on failure the funded position is
      returned unchanged. Only the owner's key, or no key, changes an occupied position. Equity
      moves by the collateral delta, minus less than one collateral unit that funding rounds away. */
  lemma {:induction false} ApplyExact(p: Position, requestKey: int, collateralDelta: felt, assetId: int,
                                      syntheticDelta: felt, funding: FundingInfo, prices: seq<OraclePrice>,
                                      config: GeneralConfig)
    requires ValidPosition(p) && ValidIndices(funding.indices) && ValidMarket(prices, config)
    requires Apply(p, requestKey, collateralDelta, assetId, syntheticDelta, funding, prices, config).Done?
    ensures var u := Apply(p, requestKey, collateralDelta, assetId, syntheticDelta, funding, prices, config).value;
      && ApplyFunding(p, funding) == Done(u.funded)
      && ValidPosition(u.updated)
      && Stamped(u.updated, funding)
      && (u.code != Success ==> u.updated == u.funded)
      && (u.code == Success ==> u.updated.collateral == u.funded.collateral + collateralDelta)
      && (forall x :: Holding(u.updated.assets, x) ==
                      Holding(p.assets, x) + (if u.code == Success && x == assetId then syntheticDelta else 0))
      && (u.code == Success && (requestKey != 0 || p.publicKey != 0) ==>
            LegalTransition(u.updated, u.funded, prices, config))
      && (u.code == Success && p.publicKey != 0 ==>
            && (requestKey == 0 || requestKey == p.publicKey)
            && (u.updated.publicKey == p.publicKey || u.updated == EMPTY_POSITION))
      && (u.code == Success && requestKey != 0 ==> u.updated.publicKey == requestKey || u.updated == EMPTY_POSITION)
      && 0 <= Equity(p, funding.indices) + (if u.code == Success then collateralDelta * FXP_32_ONE else 0)
              - Equity(u.updated, funding.indices) < FXP_32_ONE
  {
    hide ChangeFunded, ApplyFunding, LegalTransition;
    FundingRoundsDown(p, funding);
    var funded := ApplyFunding(p, funding).value;
    var key := if requestKey == 0 then p.publicKey else requestKey;
    var changed := ChangeFunded(funded, key, collateralDelta, assetId, syntheticDelta, funding, prices, config);
    if key != 0 && changed.Done? {
      ChangeFundedExact(funded, key, collateralDelta, assetId, syntheticDelta, funding, prices, config);
      UpToDateOwesNothing(changed.value.updated.assets, funding.indices);
    }
    UpToDateOwesNothing(funded.assets, funding.indices);
  }

  // ---- Updates that change nothing ----

  lemma {:induction false} StatusIgnoresKey(p: Position, q: Position, prices: seq<OraclePrice>, config: GeneralConfig)
    requires p.collateral == q.collateral && p.assets == q.assets
    ensures GetStatus(p, prices, config) == GetStatus(q, prices, config)
  {
    hide StatusInner;
  }

  /** The leverage rule sees collateral and assets only. */
  lemma {:induction false} TransitionIgnoresKey(updated: Position, p: Position, q: Position, prices: seq<OraclePrice>,
                                                config: GeneralConfig)
    requires p.collateral == q.collateral && p.assets == q.assets
    ensures CheckValidTransition(updated, p, prices, config) == CheckValidTransition(updated, q, prices, config)
  {
    hide GetStatus, CheckSmaller, IsLeFelt, IsLe;
    StatusIgnoresKey(p, q, prices, config);
  }

  /** An accepted update without deltas only settles key and emptiness of the funded position. */
  lemma {:induction false} IdleShape(p: Position, requestKey: int, funding: FundingInfo, prices: seq<OraclePrice>,
                                     config: GeneralConfig)
    requires Apply(p, requestKey, 0, NO_SYNTHETIC_DELTA_ASSET_ID, 0, funding, prices, config).Done?
    requires Apply(p, requestKey, 0, NO_SYNTHETIC_DELTA_ASSET_ID, 0, funding, prices, config).value.code == Success
    ensures var u := Apply(p, requestKey, 0, NO_SYNTHETIC_DELTA_ASSET_ID, 0, funding, prices, config).value;
      var q, f := u.updated, u.funded;
      && q.collateral == f.collateral && q.assets == f.assets
      && (requestKey == 0 && p.publicKey == 0 ==> q == f)
      && (requestKey != 0 || p.publicKey != 0 ==>
            && CheckValidTransition(q, f, prices, config) == Done(Success)
            && CheckValidBalance(f.collateral)
            && (q == EMPTY_POSITION || q == f.(publicKey := if requestKey == 0 then p.publicKey else requestKey)))
  {
    hide ApplyFunding, CheckValidTransition, CheckValidBalance;
  }

  /** What was accepted without deltas is accepted again. */
  lemma {:induction false} IdleAgain(p: Position, requestKey: int, funding: FundingInfo, prices: seq<OraclePrice>,
                                     config: GeneralConfig)
    requires ValidPosition(p) && ValidIndices(funding.indices) && ValidMarket(prices, config)
    requires Apply(p, requestKey, 0, NO_SYNTHETIC_DELTA_ASSET_ID, 0, funding, prices, config).Done?
    requires Apply(p, requestKey, 0, NO_SYNTHETIC_DELTA_ASSET_ID, 0, funding, prices, config).value.code == Success
    ensures var q := Apply(p, requestKey, 0, NO_SYNTHETIC_DELTA_ASSET_ID, 0, funding, prices, config).value.updated;
      var r := Apply(q, requestKey, 0, NO_SYNTHETIC_DELTA_ASSET_ID, 0, funding, prices, config);
      r.Done? && r.value.code == Success
  {
    var u := Apply(p, requestKey, 0, NO_SYNTHETIC_DELTA_ASSET_ID, 0, funding, prices, config).value;
    var q := u.updated;
    IdleShape(p, requestKey, funding, prices, config);
    ApplyExact(p, requestKey, 0, NO_SYNTHETIC_DELTA_ASSET_ID, 0, funding, prices, config);
    FundingRoundsDown(p, funding);
    FundingIdempotent(q, funding);
    var f := q.(fundingTimestamp := funding.timestamp);
    assert ApplyFunding(q, funding) == Done(f);
    TransitionIgnoresKey(q, u.funded, f, prices, config);
    hide ApplyFunding, CheckValidTransition, CheckValidBalance, ValidPosition, LegalTransition, Equity;
  }
}
