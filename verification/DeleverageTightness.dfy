/** What an accepted deleverage (transactions/deleverage.cairo) and an accepted liquidation
    guarantee about the positions they touch. */
module DeleverageTightness {
  import opened Felt
  import opened Options
  import opened PerpetualTypes
  import opened Arithmetic
  import opened Funding
  import opened Status
  import opened Transition
  import opened UpdatePosition
  import opened Batch
  import opened BatchInvariants
  import SerializeChange

  /** The deltas of the deleveragable side. */
  function CollateralDelta(tx: Transaction): int
    requires tx.Deleverage?
  {
    if tx.deleveragerIsBuyingSynthetic then tx.amountCollateral else -tx.amountCollateral
  }

  function SyntheticDelta(tx: Transaction): int
    requires tx.Deleverage?
  {
    if tx.deleveragerIsBuyingSynthetic then -tx.amountSynthetic else tx.amountSynthetic
  }

  /** update_position on the deleveragable side with the given collateral. */
  function DeleveragableUpdate(s: State, cfg: BatchConfig, tx: Transaction, collateralDelta: int): Outcome<Update>
    requires tx.Deleverage? && 0 <= tx.deleveragablePositionId < |s.positions|
  {
    UpdatePosition.Apply(s.positions[tx.deleveragablePositionId], 0, collateralDelta, tx.syntheticAssetId,
                         SyntheticDelta(tx), s.funding, s.prices, cfg.general)
  }

  /** The 250-bit check decides the strict ratio inequality over the integers. */
  lemma {:induction false} TightnessComparison(tv0: int, tr0: int, tv1: int, tr1: int)
    requires TV_LOWER_REP <= tv0 < TV_UPPER_REP && 0 <= tr0 < TR_UPPER_REP
    requires TV_LOWER_REP <= tv1 < TV_UPPER_REP && 0 <= tr1 < TR_UPPER_REP
    ensures DeleverageIsTight(tv0, tr0, tv1, tr1) <==> (tv1 - FXP_32_ONE) * tr0 < tv0 * tr1
  {
    var m, n := 0x1000000000000000000000000, TR_UPPER_REP;
    ProductBound(tv0, tr1, m, n);
    ProductBound(tv1 - FXP_32_ONE, tr0, m, n);
    assert m * n == TWO_224;
  }

  /** A tight trade of an insolvent position: its risk is positive, and one collateral unit less
      satisfies neither rule of the transition check. */
  lemma {:induction false} TightLeavesNoRoom(tv0: int, tr0: int, tv1: int, tr1: int)
    requires 0 <= tr0 && 0 <= tr1 && tv0 < 0
    requires (tv1 - FXP_32_ONE) * tr0 < tv0 * tr1
    ensures tr0 > 0
    ensures !(tr1 <= (tv1 - FXP_32_ONE) * FXP_32_ONE)
    ensures !(tv0 * tr1 <= (tv1 - FXP_32_ONE) * tr0)
  {
    NonNegativeProduct(-tv0, tr1);
    assert (-tv0) * tr1 == -(tv0 * tr1);
    if tv1 - FXP_32_ONE >= 0 { NonNegativeProduct(tv1 - FXP_32_ONE, tr0); }
  }

  /** Two accepted updates of one position by the same synthetic delta end in the same assets. */
  lemma {:induction false} SameAssets(a: Position, b: Position, funding: FundingInfo)
    requires ValidPosition(a) && ValidPosition(b)
    requires UpToDate(a.assets, funding.indices) && UpToDate(b.assets, funding.indices)
    requires forall x :: Holding(a.assets, x) == Holding(b.assets, x)
    ensures a.assets == b.assets
  {
    SerializeChange.SameHoldings(a.assets, b.assets);
    forall i | 0 <= i < |a.assets|
      ensures a.assets[i] == b.assets[i]
    {
      assert FindIndex(funding.indices, a.assets[i].assetId) == Some(a.assets[i].cachedFundingIndex);
      assert FindIndex(funding.indices, b.assets[i].assetId) == Some(b.assets[i].cachedFundingIndex);
    }
  }

  lemma {:induction false} AmountIsSmall(a: felt)
    requires IsAmount(a)
    ensures 0 <= a < AMOUNT_UPPER_BOUND
  {
  }

  /** The checks of an accepted deleverage, as made on the field. */
  lemma {:induction false} DeleverageChecks(s: State, cfg: BatchConfig, tx: Transaction)
    requires tx.Deleverage? && ExecuteDeleverage(s, cfg, tx).Done?
    ensures 0 <= tx.deleveragablePositionId < |s.positions|
    ensures 0 <= tx.amountCollateral < AMOUNT_UPPER_BOUND && 0 <= tx.amountSynthetic < AMOUNT_UPPER_BOUND
    ensures var u := DeleveragableUpdate(s, cfg, tx, CollateralDelta(tx));
      && u.Done? && u.value.code == Success
      && GetStatus(u.value.funded, s.prices, cfg.general).Done?
      && GetStatus(u.value.updated, s.prices, cfg.general).Done?
      && var s0, s1 := GetStatus(u.value.funded, s.prices, cfg.general).value,
         GetStatus(u.value.updated, s.prices, cfg.general).value;
      && s0.code == Success && s1.code == Success
      && IsLe(s0.tv, -1)
      && DeleverageIsTight(s0.tv, s0.tr, s1.tv, s1.tr)
  {
    hide UpdatePosition.Apply, GetStatus, GetAssetBalance, DeleverageIsTight, IsLe, IsNnLe, UpdateOrAbort;
    AmountIsSmall(tx.amountCollateral);
    AmountIsSmall(tx.amountSynthetic);
  }

  /** The funded position is insolvent and the updated one is the tightest the ratio rule admits. */
  predicate Tight(funded: Position, updated: Position, prices: seq<OraclePrice>, config: GeneralConfig)
    requires ValidMarket(prices, config)
  {
    && StatusInRange(funded, prices, config) && StatusInRange(updated, prices, config)
    && Value(funded, prices, config) < 0
    && (Value(updated, prices, config) - FXP_32_ONE) * Risk(funded.assets, prices, config)
         < Value(funded, prices, config) * Risk(updated.assets, prices, config)
  }

  /** The field checks on the two statuses decide tightness over the integers. */
  lemma {:induction false} StatusChecksAreTight(funded: Position, updated: Position, prices: seq<OraclePrice>,
                                                config: GeneralConfig)
    requires ValidMarket(prices, config) && StoredPosition(funded) && StoredPosition(updated)
    requires GetStatus(funded, prices, config).Done? && GetStatus(updated, prices, config).Done?
    requires GetStatus(funded, prices, config).value.code == Success
             && GetStatus(updated, prices, config).value.code == Success
    ensures var s0, s1 := GetStatus(funded, prices, config).value, GetStatus(updated, prices, config).value;
      IsLe(s0.tv, -1) && DeleverageIsTight(s0.tv, s0.tr, s1.tv, s1.tr) <==> Tight(funded, updated, prices, config)
  {
    hide GetStatus, DeleverageIsTight, Value, Risk;
    StatusExact(funded, prices, config);
    StatusExact(updated, prices, config);
    RiskBound(funded.assets, prices, config);
    RiskBound(updated.assets, prices, config);
    TightnessComparison(Value(funded, prices, config), Risk(funded.assets, prices, config),
                        Value(updated, prices, config), Risk(updated.assets, prices, config));
  }

  /** What an accepted update_position without a request key does, in one predicate. */
  ghost predicate Accepted(p: Position, u: Update, collateralDelta: int, assetId: int, syntheticDelta: int,
                           funding: FundingInfo, prices: seq<OraclePrice>, config: GeneralConfig)
    requires ValidMarket(prices, config)
  {
    && ApplyFunding(p, funding) == Done(u.funded)
    && StoredPosition(u.funded)
    && (p.publicKey == 0 ==> u.funded.assets == [] && u.funded.collateral == 0)
    && ValidPosition(u.updated) && UpToDate(u.updated.assets, funding.indices)
    && u.updated.collateral == u.funded.collateral + collateralDelta
    && (forall x :: Holding(u.updated.assets, x) == Holding(p.assets, x) + (if x == assetId then syntheticDelta else 0))
    && (p.publicKey != 0 ==> LegalTransition(u.updated, u.funded, prices, config))
  }

  lemma {:induction false} AcceptedUpdate(s: State, cfg: BatchConfig, tx: Transaction, collateralDelta: felt, u: Update)
    requires Ready(s, cfg) && tx.Deleverage? && 0 <= tx.deleveragablePositionId < |s.positions|
    requires DeleveragableUpdate(s, cfg, tx, collateralDelta) == Done(u) && u.code == Success
    ensures Accepted(s.positions[tx.deleveragablePositionId], u, collateralDelta, tx.syntheticAssetId,
                     SyntheticDelta(tx), s.funding, s.prices, cfg.general)
  {
    hide UpdatePosition.Apply, ApplyFunding, LegalTransition, Equity;
    var p := s.positions[tx.deleveragablePositionId];
    ApplyExact(p, 0, collateralDelta, tx.syntheticAssetId, SyntheticDelta(tx), s.funding, s.prices, cfg.general);
    FundingRoundsDown(p, s.funding);
  }

  /** After a tight update of an insolvent position, the same holdings with one collateral unit
      less are no legal transition. */
  lemma {:induction false} OneUnitLessIsIllegal(funded: Position, updated: Position, less: Position,
                                                prices: seq<OraclePrice>, config: GeneralConfig)
    requires ValidMarket(prices, config) && StoredPosition(funded) && StoredPosition(updated)
    requires Tight(funded, updated, prices, config)
    requires less.assets == updated.assets && less.collateral == updated.collateral - 1
    ensures Risk(funded.assets, prices, config) > 0
    ensures !LegalTransition(less, funded, prices, config)
  {
    hide NoLarger;
    RiskBound(funded.assets, prices, config);
    RiskBound(updated.assets, prices, config);
    assert AllEvaluable(less.assets, prices, config);
    assert Value(less, prices, config) == Value(updated, prices, config) - FXP_32_ONE;
    TightLeavesNoRoom(Value(funded, prices, config), Risk(funded.assets, prices, config),
                      Value(updated, prices, config), Risk(updated.assets, prices, config));
  }

  /** Two accepted updates of an insolvent position that differ by one collateral unit: the larger
      one is not tight. */
  lemma {:induction false} NotBothAccepted(p: Position, u: Update, less: Update, collateralDelta: int, assetId: int,
                                           syntheticDelta: int, funding: FundingInfo, prices: seq<OraclePrice>,
                                           config: GeneralConfig)
    requires ValidMarket(prices, config)
    requires Accepted(p, u, collateralDelta, assetId, syntheticDelta, funding, prices, config)
    requires Accepted(p, less, collateralDelta - 1, assetId, syntheticDelta, funding, prices, config)
    ensures !Tight(u.funded, u.updated, prices, config)
  {
    hide ApplyFunding, LegalTransition, Risk;
    SameAssets(less.updated, u.updated, funding);
    if Tight(u.funded, u.updated, prices, config) {
      assert p.publicKey != 0;
      OneUnitLessIsIllegal(u.funded, u.updated, less.updated, prices, config);
    }
  }

  /** An accepted deleverage is tight: the deleveragable position was insolvent with positive risk,
      and the same trade giving it one collateral unit less is not accepted by update_position. */
  lemma {:induction false} AcceptedDeleverageIsTight(s: State, cfg: BatchConfig, tx: Transaction)
    requires Ready(s, cfg) && tx.Deleverage? && ExecuteDeleverage(s, cfg, tx).Done?
    ensures 0 <= tx.deleveragablePositionId < |s.positions|
    ensures var f := ApplyFunding(s.positions[tx.deleveragablePositionId], s.funding);
      && f.Done?
      && StatusInRange(f.value, s.prices, cfg.general)
      && Value(f.value, s.prices, cfg.general) < 0 < Risk(f.value.assets, s.prices, cfg.general)
    ensures var less := DeleveragableUpdate(s, cfg, tx, CollateralDelta(tx) - 1);
      !(less.Done? && less.value.code == Success)
  {
    hide ExecuteDeleverage, DeleveragableUpdate, GetStatus, ApplyFunding, DeleverageIsTight, IsLe, LegalTransition,
      NoLarger;
    DeleverageChecks(s, cfg, tx);
    var p := s.positions[tx.deleveragablePositionId];
    var c := CollateralDelta(tx);
    var u := DeleveragableUpdate(s, cfg, tx, c).value;
    AcceptedUpdate(s, cfg, tx, c, u);
    StatusChecksAreTight(u.funded, u.updated, s.prices, cfg.general);
    OneUnitLessIsIllegal(u.funded, u.updated, u.updated.(collateral := u.updated.collateral - 1), s.prices,
                         cfg.general);
    var less := DeleveragableUpdate(s, cfg, tx, c - 1);
    if less.Done? && less.value.code == Success {
      AcceptedUpdate(s, cfg, tx, c - 1, less.value);
      NotBothAccepted(p, u, less.value, c, tx.syntheticAssetId, SyntheticDelta(tx), s.funding, s.prices, cfg.general);
    }
  }

  // ---- Liquidation ----

  /** The balance check of liquidate and deleverage: what is given is held, so the holding moves
      toward zero and does not change sign. */
  lemma {:induction false} GivesWhatItHolds(balance: int, amount: felt, gives: bool)
    requires ValidBalance(balance)
    requires IsNnLe(amount, if gives then balance else -balance)
    ensures 0 <= amount <= Abs(balance)
    ensures TowardZero(balance + (if gives then -amount else amount), balance)
  {
  }

  /** The field comparison of execute_liquidate: total risk above the leveraged total value. */
  lemma {:induction false} UnderLeveraged(tv: int, tr: int)
    requires TV_LOWER_REP <= tv < TV_UPPER_REP && 0 <= tr < TR_UPPER_REP
    ensures Is250Bit(tr - (tv * FXP_32_ONE + 1)) <==> tv * FXP_32_ONE < tr
  {
  }

  /** The checks of an accepted liquidation, as made on the field. */
  lemma {:induction false} LiquidationChecks(s: State, cfg: BatchConfig, tx: Transaction)
    requires tx.Liquidate? && LiquidatePosition(s, cfg, tx).Done?
    ensures 0 <= tx.liquidatedPositionId < |s.positions|
    ensures ApplyFunding(s.positions[tx.liquidatedPositionId], s.funding).Done?
    ensures var f := ApplyFunding(s.positions[tx.liquidatedPositionId], s.funding).value;
      var buying := tx.liquidatorOrder.isBuyingSynthetic;
      && GetStatus(f, s.prices, cfg.general).Done?
      && var status := GetStatus(f, s.prices, cfg.general).value;
      && status.code == Success
      && Is250Bit(status.tr - (status.tv * FXP_32_ONE + 1))
      && IsNnLe(tx.actualSynthetic, if buying then GetAssetBalance(f, tx.liquidatorOrder.assetIdSynthetic)
                                    else -GetAssetBalance(f, tx.liquidatorOrder.assetIdSynthetic))
  {
    hide UpdatePosition.Apply, GetStatus, ApplyFunding, GetAssetBalance, IsNnLe, Is250Bit;
  }

  /** An accepted liquidation touches only a position that was not well leveraged, and moves the
      liquidated holding toward zero by at most its size. */
  lemma {:induction false} AcceptedLiquidation(s: State, cfg: BatchConfig, tx: Transaction)
    requires Ready(s, cfg) && tx.Liquidate? && LiquidatePosition(s, cfg, tx).Done?
    ensures 0 <= tx.liquidatedPositionId < |s.positions|
    ensures var f := ApplyFunding(s.positions[tx.liquidatedPositionId], s.funding);
      && f.Done?
      && StatusInRange(f.value, s.prices, cfg.general)
      && !WellLeveraged(f.value, s.prices, cfg.general)
    ensures var id := tx.liquidatorOrder.assetIdSynthetic;
      var before := Holding(s.positions[tx.liquidatedPositionId].assets, id);
      && 0 <= tx.actualSynthetic <= Abs(before)
      && TowardZero(before
                    + (if tx.liquidatorOrder.isBuyingSynthetic then -tx.actualSynthetic else tx.actualSynthetic),
                    before)
  {
    hide LiquidatePosition, ApplyFunding, GetStatus, Is250Bit, IsNnLe, TowardZero, GetAssetBalance, Value, Risk;
    LiquidationChecks(s, cfg, tx);
    var p := s.positions[tx.liquidatedPositionId];
    FundingRoundsDown(p, s.funding);
    var f := ApplyFunding(p, s.funding).value;
    var id := tx.liquidatorOrder.assetIdSynthetic;
    StatusExact(f, s.prices, cfg.general);
    RiskBound(f.assets, s.prices, cfg.general);
    UnderLeveraged(Value(f, s.prices, cfg.general), Risk(f.assets, s.prices, cfg.general));
    AssetBalanceIsHolding(f, id);
    BalanceInRange(f.assets, id);
    GivesWhatItHolds(Holding(f.assets, id), tx.actualSynthetic, tx.liquidatorOrder.isBuyingSynthetic);
  }

  lemma {:induction false} BalanceInRange(assets: seq<PositionAsset>, id: int)
    requires ValidAssets(assets)
    ensures ValidBalance(Holding(assets, id))
  {
    if k :| 0 <= k < |assets| && assets[k].assetId == id {
      HoldingAt(assets, k);
    } else {
      HoldingAbsent(assets, id);
    }
  }
}
