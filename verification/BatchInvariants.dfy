/** What every transaction of the perpetual batch keeps: the state invariant, the total of each
    synthetic asset, and the accounting of the system's collateral. */
module BatchInvariants {
  import opened Felt
  import opened PerpetualTypes
  import opened Funding
  import opened Status
  import opened Transition
  import opened UpdatePosition
  import opened MessageHashes
  import opened Orders
  import opened Totals
  import opened Batch

  predicate PricesInBounds(prices: seq<OraclePrice>) {
    forall i :: 0 <= i < |prices| ==> PRICE_LOWER_BOUND <= prices[i].price < PRICE_UPPER_BOUND
  }

  /** What execute_batch validates before the first transaction: the asset configuration, and signed
      prices that passed the bounds of check_oracle_price. */
  predicate ValidConfig(cfg: BatchConfig) {
    ValidInfos(cfg.general.infos) && PricesInBounds(cfg.minPrices) && PricesInBounds(cfg.maxPrices)
  }

  predicate ValidPositions(ps: seq<Position>) {
    forall i :: 0 <= i < |ps| ==> ValidPosition(ps[i])
  }

  predicate ValidState(s: State) {
    && ValidPositions(s.positions)
    && ValidIndices(s.funding.indices)
    && ValidPrices(s.prices)
    && ValidOrders(s.orders)
    && s.funding.timestamp <= s.systemTime
  }

  /** The effect of position updates under fixed funding indices: at most `n` funding applications
      lose less than one collateral unit each, the collateral moves by `collateral`, the holding
      of `id` by `synthetic`, and every touched position is stamped. */
  ghost predicate Moves(a: seq<Position>, b: seq<Position>, funding: FundingInfo, n: nat, collateral: int,
                        id: int, synthetic: int)
  {
    && |b| == |a|
    && ValidPositions(b)
    && (forall i :: 0 <= i < |a| ==> b[i] == a[i] || Stamped(b[i], funding))
    && (forall x :: TotalHolding(b, x) == TotalHolding(a, x) + (if x == id then synthetic else 0))
    && 0 <= TotalEquity(a, funding.indices) + collateral * FXP_32_ONE - TotalEquity(b, funding.indices)
         <= n * (FXP_32_ONE - 1)
  }

  lemma {:induction false} MovesCompose(a: seq<Position>, b: seq<Position>, c: seq<Position>, funding: FundingInfo,
                     n1: nat, coll1: int, id1: int, syn1: int, n2: nat, coll2: int, id2: int, syn2: int)
    requires Moves(a, b, funding, n1, coll1, id1, syn1) && Moves(b, c, funding, n2, coll2, id2, syn2)
    requires syn1 == 0 || id1 == id2
    ensures Moves(a, c, funding, n1 + n2, coll1 + coll2, id2, syn1 + syn2)
  {
  }

  /** Replacing one leaf by the result of update_position. */
  lemma {:induction false} LeafMoves(ps: seq<Position>, i: int, u: Update, requestKey: int, collateralDelta: felt,
                                     assetId: int, syntheticDelta: felt, funding: FundingInfo,
                                     prices: seq<OraclePrice>, config: GeneralConfig)
    requires ValidPositions(ps) && 0 <= i < |ps| && ValidIndices(funding.indices) && ValidMarket(prices, config)
    requires UpdatePosition.Apply(ps[i], requestKey, collateralDelta, assetId, syntheticDelta, funding, prices, config)
             == Done(u)
    ensures var ok := u.code == Success;
      Moves(ps, ps[i := u.updated], funding, 1, if ok then collateralDelta else 0, assetId,
            if ok then syntheticDelta else 0)
  {
    hide UpdatePosition.Apply, ApplyFunding, ValidPosition, Stamped, LegalTransition, Equity, TotalEquity, TotalHolding;
    ApplyExact(ps[i], requestKey, collateralDelta, assetId, syntheticDelta, funding, prices, config);
    TotalEquityUpdate(ps, i, u.updated, funding.indices);
    forall x
      ensures TotalHolding(ps[i := u.updated], x) ==
              TotalHolding(ps, x) + (if u.code == Success && x == assetId then syntheticDelta else 0)
    {
      TotalHoldingUpdate(ps, i, u.updated, x);
    }
  }

  /** Market and position conditions of a state in one word. */
  predicate Ready(s: State, cfg: BatchConfig) {
    ValidState(s) && ValidConfig(cfg)
  }

  lemma {:induction false} UpdateMoves(s: State, cfg: BatchConfig, id: int, requestKey: int, collateralDelta: felt,
                                       assetId: int, syntheticDelta: felt)
    requires Ready(s, cfg)
    requires UpdateInDict(s, cfg, id, requestKey, collateralDelta, assetId, syntheticDelta).Done?
    ensures var u := UpdateInDict(s, cfg, id, requestKey, collateralDelta, assetId, syntheticDelta).value;
      var ok := u.code == Success;
      Moves(s.positions, u.positions, s.funding, 1, if ok then collateralDelta else 0, assetId,
            if ok then syntheticDelta else 0)
  {
    var u := UpdatePosition.Apply(s.positions[id], requestKey, collateralDelta, assetId, syntheticDelta,
                                  s.funding, s.prices, cfg.general).value;
    LeafMoves(s.positions, id, u, requestKey, collateralDelta, assetId, syntheticDelta,
              s.funding, s.prices, cfg.general);
  }

  lemma {:induction false} UpdateOrAbortMoves(s: State, cfg: BatchConfig, id: int, requestKey: int,
                                              collateralDelta: felt, assetId: int, syntheticDelta: felt)
    requires Ready(s, cfg)
    requires UpdateOrAbort(s, cfg, id, requestKey, collateralDelta, assetId, syntheticDelta).Done?
    ensures var t := UpdateOrAbort(s, cfg, id, requestKey, collateralDelta, assetId, syntheticDelta).value;
      && t == s.(positions := t.positions)
      && Ready(t, cfg)
      && Moves(s.positions, t.positions, s.funding, 1, collateralDelta, assetId, syntheticDelta)
  {
    UpdateMoves(s, cfg, id, requestKey, collateralDelta, assetId, syntheticDelta);
  }

  /** What a transaction other than a tick leaves alone. */
  predicate SameMarket(s: State, t: State) {
    t.funding == s.funding && t.prices == s.prices && t.systemTime == s.systemTime && t.fundingTable == s.fundingTable
  }

  lemma {:induction false} OrdersStayValid(orders: OrderBook, hash: int, base: OrderBase, minExpiration: int,
                                           amount: felt, full: felt, verify: Verifier)
    requires ValidOrders(orders)
    requires ValidateOrderAndUpdateFulfillment(orders, hash, base, minExpiration, amount, full, verify).Done?
    ensures ValidOrders(ValidateOrderAndUpdateFulfillment(orders, hash, base, minExpiration, amount, full,
                                                          verify).value)
    ensures 0 <= amount <= full < AMOUNT_UPPER_BOUND
  {
    FulfillmentExact(orders, hash, amount, full);
  }

  // ---- Each transaction ----

  lemma {:induction false} DepositMoves(s: State, cfg: BatchConfig, tx: Transaction)
    requires Ready(s, cfg) && tx.Deposit? && ExecuteDeposit(s, cfg, tx).Done?
    ensures var t := ExecuteDeposit(s, cfg, tx).value;
      && ValidState(t) && SameMarket(s, t)
      && Moves(s.positions, t.positions, s.funding, 1, tx.amount, NO_SYNTHETIC_DELTA_ASSET_ID, 0)
  {
    UpdateMoves(s, cfg, tx.positionId, tx.publicKey, tx.amount, NO_SYNTHETIC_DELTA_ASSET_ID, 0);
  }

  lemma {:induction false} WithdrawalMoves(s: State, cfg: BatchConfig, tx: Transaction)
    requires Ready(s, cfg) && tx.Withdrawal? && ExecuteWithdrawal(s, cfg, tx).Done?
    ensures var t := ExecuteWithdrawal(s, cfg, tx).value;
      && ValidState(t) && SameMarket(s, t)
      && Moves(s.positions, t.positions, s.funding, 1, -tx.amount, NO_SYNTHETIC_DELTA_ASSET_ID, 0)
  {
    hide UpdatePosition.Apply;
    var fields := WithdrawalFields(tx.positionId, tx.ownerKey, tx.amount, tx.base.nonce, tx.base.expirationTimestamp);
    var hash := WithdrawalHash(cfg.pedersen, fields, tx.base.publicKey, cfg.general.collateralAssetId);
    OrdersStayValid(s.orders, hash, tx.base, cfg.minExpiration, tx.amount, tx.amount, cfg.verify);
    var orders := ValidateOrderAndUpdateFulfillment(s.orders, hash, tx.base, cfg.minExpiration, tx.amount, tx.amount,
                                                    cfg.verify).value;
    UpdateMoves(s.(orders := orders), cfg, tx.positionId, tx.base.publicKey, -tx.amount, NO_SYNTHETIC_DELTA_ASSET_ID,
                0);
  }

  lemma {:induction false} ForcedWithdrawalMoves(s: State, cfg: BatchConfig, tx: Transaction)
    requires Ready(s, cfg) && tx.ForcedWithdrawal? && ExecuteForcedWithdrawal(s, cfg, tx).Done?
    ensures var t := ExecuteForcedWithdrawal(s, cfg, tx).value;
      && ValidState(t) && SameMarket(s, t)
      && Moves(s.positions, t.positions, s.funding, 1, if tx.isValid then -tx.amount else 0,
               NO_SYNTHETIC_DELTA_ASSET_ID, 0)
  {
    UpdateMoves(s, cfg, tx.positionId, tx.publicKey, -tx.amount, NO_SYNTHETIC_DELTA_ASSET_ID, 0);
  }

  lemma {:induction false} MoveCollateralMoves(s: State, cfg: BatchConfig, t: Transfer)
    requires Ready(s, cfg) && MoveCollateral(s, cfg, t).Done?
    ensures var r := MoveCollateral(s, cfg, t).value;
      && r == s.(positions := r.positions)
      && Ready(r, cfg)
      && Moves(s.positions, r.positions, s.funding, 2, 0, NO_SYNTHETIC_DELTA_ASSET_ID, 0)
  {
    var none := NO_SYNTHETIC_DELTA_ASSET_ID;
    UpdateOrAbortMoves(s, cfg, t.senderPositionId, t.base.publicKey, -t.amount, none, 0);
    var s1 := UpdateOrAbort(s, cfg, t.senderPositionId, t.base.publicKey, -t.amount, none, 0).value;
    UpdateOrAbortMoves(s1, cfg, t.receiverPositionId, t.receiverPublicKey, t.amount, none, 0);
    var s2 := UpdateOrAbort(s1, cfg, t.receiverPositionId, t.receiverPublicKey, t.amount, none, 0).value;
    MovesCompose(s.positions, s1.positions, s2.positions, s.funding, 1, -t.amount, none, 0, 1, t.amount, none, 0);
  }

  lemma {:induction false} TransferMoves(s: State, cfg: BatchConfig, t: Transfer, condition: int)
    requires Ready(s, cfg) && ExecuteTransfer(s, cfg, t, condition).Done?
    ensures var s' := ExecuteTransfer(s, cfg, t, condition).value;
      && ValidState(s') && SameMarket(s, s')
      && s'.modifications == s.modifications
      && Moves(s.positions, s'.positions, s.funding, 2, 0, NO_SYNTHETIC_DELTA_ASSET_ID, 0)
  {
    var fields := TransferFields(t.assetId, 0, t.receiverPublicKey, t.senderPositionId, t.receiverPositionId,
                                 t.senderPositionId, t.amount, 0, t.base.nonce, t.base.expirationTimestamp);
    var hash := TransferHash(cfg.pedersen, fields, condition);
    OrdersStayValid(s.orders, hash, t.base, cfg.minExpiration, t.amount, t.amount, cfg.verify);
    var orders := ValidateOrderAndUpdateFulfillment(s.orders, hash, t.base, cfg.minExpiration, t.amount, t.amount,
                                                    cfg.verify).value;
    MoveCollateralMoves(s.(orders := orders), cfg, t);
  }

  lemma {:induction false} FillOrderMoves(s: State, cfg: BatchConfig, o: LimitOrder, collateral: felt, synthetic: felt,
                                          fee: felt)
    requires Ready(s, cfg) && IsAmount(collateral) && IsAmount(fee)
    requires FillOrder(s, cfg, o, collateral, synthetic, fee).Done?
    ensures var t := FillOrder(s, cfg, o, collateral, synthetic, fee).value;
      && t == s.(positions := t.positions)
      && Ready(t, cfg)
      && Moves(s.positions, t.positions, s.funding, 2, if o.isBuyingSynthetic then -collateral else collateral,
               o.assetIdSynthetic, if o.isBuyingSynthetic then synthetic else -synthetic)
  {
    hide UpdatePosition.Apply, Moves;
    var none := NO_SYNTHETIC_DELTA_ASSET_ID;
    var feeId, feeKey := cfg.general.feePositionId, cfg.general.feePublicKey;
    UpdateOrAbortMoves(s, cfg, feeId, feeKey, fee, none, 0);
    var s1 := UpdateOrAbort(s, cfg, feeId, feeKey, fee, none, 0).value;
    var c := (if o.isBuyingSynthetic then -collateral else collateral) - fee;
    var d := if o.isBuyingSynthetic then synthetic else -synthetic;
    UpdateOrAbortMoves(s1, cfg, o.positionId, o.base.publicKey, c, o.assetIdSynthetic, d);
    var s2 := UpdateOrAbort(s1, cfg, o.positionId, o.base.publicKey, c, o.assetIdSynthetic, d).value;
    MovesCompose(s.positions, s1.positions, s2.positions, s.funding, 1, fee, none, 0, 1, c, o.assetIdSynthetic, d);
  }

  function LimitOrderBook(s: State, cfg: BatchConfig, o: LimitOrder, synthetic: int): Outcome<OrderBook> {
    ValidateOrderAndUpdateFulfillment(s.orders, LimitOrderHash(cfg.pedersen, ExchangeFields(o)), o.base,
                                      cfg.minExpiration, synthetic, o.amountSynthetic, cfg.verify)
  }

  lemma {:induction false} LimitOrderIsFill(s: State, cfg: BatchConfig, o: LimitOrder, collateral: int, synthetic: int,
                                            fee: int)
    requires ExecuteLimitOrder(s, cfg, o, collateral, synthetic, fee).Done?
    ensures LimitOrderBook(s, cfg, o, synthetic).Done?
    ensures ExecuteLimitOrder(s, cfg, o, collateral, synthetic, fee) ==
            FillOrder(s.(orders := LimitOrderBook(s, cfg, o, synthetic).value), cfg, o, collateral, synthetic, fee)
  {
    hide ValidateFairness, FillOrder, ValidateOrderAndUpdateFulfillment, IsAmount, IsLe, IsInRange;
  }

  lemma {:induction false} LimitOrderMoves(s: State, cfg: BatchConfig, o: LimitOrder, collateral: felt,
                                           synthetic: felt, fee: felt)
    requires Ready(s, cfg) && IsAmount(collateral) && IsAmount(fee)
    requires ExecuteLimitOrder(s, cfg, o, collateral, synthetic, fee).Done?
    ensures var t := ExecuteLimitOrder(s, cfg, o, collateral, synthetic, fee).value;
      && Ready(t, cfg) && SameMarket(s, t)
      && t.modifications == s.modifications
      && Moves(s.positions, t.positions, s.funding, 2, if o.isBuyingSynthetic then -collateral else collateral,
               o.assetIdSynthetic, if o.isBuyingSynthetic then synthetic else -synthetic)
  {
    LimitOrderIsFill(s, cfg, o, collateral, synthetic, fee);
    OrdersStayValid(s.orders, LimitOrderHash(cfg.pedersen, ExchangeFields(o)), o.base, cfg.minExpiration, synthetic,
                    o.amountSynthetic, cfg.verify);
    FillOrderMoves(s.(orders := LimitOrderBook(s, cfg, o, synthetic).value), cfg, o, collateral, synthetic, fee);
  }

  lemma {:induction false} TradeMoves(s: State, cfg: BatchConfig, tx: Transaction)
    requires Ready(s, cfg) && tx.Trade? && ExecuteTrade(s, cfg, tx).Done?
    ensures var t := ExecuteTrade(s, cfg, tx).value;
      && ValidState(t) && SameMarket(s, t)
      && t.modifications == s.modifications
      && Moves(s.positions, t.positions, s.funding, 4, 0, tx.partyA.assetIdSynthetic, 0)
  {
    LimitOrderMoves(s, cfg, tx.partyA, tx.actualCollateral, tx.actualSynthetic, tx.actualAFee);
    var s1 := ExecuteLimitOrder(s, cfg, tx.partyA, tx.actualCollateral, tx.actualSynthetic, tx.actualAFee).value;
    LimitOrderMoves(s1, cfg, tx.partyB, tx.actualCollateral, tx.actualSynthetic, tx.actualBFee);
    var s2 := ExecuteLimitOrder(s1, cfg, tx.partyB, tx.actualCollateral, tx.actualSynthetic, tx.actualBFee).value;
    var id := tx.partyA.assetIdSynthetic;
    MovesCompose(s.positions, s1.positions, s2.positions, s.funding,
                 2, -tx.actualCollateral, id, tx.actualSynthetic, 2, tx.actualCollateral, id, -tx.actualSynthetic);
  }

  lemma {:induction false} ApplyFunds(p: Position, requestKey: int, collateralDelta: int, assetId: int,
                                      syntheticDelta: int, funding: FundingInfo, prices: seq<OraclePrice>,
                                      config: GeneralConfig)
    requires UpdatePosition.Apply(p, requestKey, collateralDelta, assetId, syntheticDelta, funding, prices,
                                  config).Done?
    ensures ApplyFunding(p, funding) ==
            Done(UpdatePosition.Apply(p, requestKey, collateralDelta, assetId, syntheticDelta, funding, prices,
                                      config).value.funded)
  {
  }

  /** Replacing one leaf by its funded position. */
  lemma {:induction false} FundedLeafMoves(ps: seq<Position>, i: int, funding: FundingInfo, assetId: int)
    requires ValidPositions(ps) && 0 <= i < |ps| && ValidIndices(funding.indices)
    requires ApplyFunding(ps[i], funding).Done?
    ensures Moves(ps, ps[i := ApplyFunding(ps[i], funding).value], funding, 1, 0, assetId, 0)
  {
    hide ApplyFunding, Equity, TotalEquity, TotalHolding;
    FundingRoundsDown(ps[i], funding);
    var q := ApplyFunding(ps[i], funding).value;
    TotalEquityUpdate(ps, i, q, funding.indices);
    forall x
      ensures TotalHolding(ps[i := q], x) == TotalHolding(ps, x)
    {
      TotalHoldingUpdate(ps, i, q, x);
    }
  }

  /** Two accepted updates of different leaves, computed from the same state. */
  lemma {:induction false} BothSidesMove(s: State, cfg: BatchConfig, buyer: int, seller: int, a: Update, b: Update,
                                         keyBuyer: int, keySeller: int, assetId: int, collateral: felt, synthetic: felt)
    requires Ready(s, cfg) && 0 <= buyer < |s.positions| && 0 <= seller < |s.positions| && buyer != seller
    requires UpdatePosition.Apply(s.positions[buyer], keyBuyer, -collateral, assetId, synthetic, s.funding, s.prices,
                                  cfg.general) == Done(a)
    requires UpdatePosition.Apply(s.positions[seller], keySeller, collateral, assetId, -synthetic, s.funding, s.prices,
                                  cfg.general) == Done(b)
    requires a.code == Success && b.code == Success
    ensures Moves(s.positions, s.positions[buyer := a.updated][seller := b.updated], s.funding, 2, 0, assetId, 0)
  {
    hide UpdatePosition.Apply;
    LeafMoves(s.positions, buyer, a, keyBuyer, -collateral, assetId, synthetic, s.funding, s.prices, cfg.general);
    var mid := s.positions[buyer := a.updated];
    LeafMoves(mid, seller, b, keySeller, collateral, assetId, -synthetic, s.funding, s.prices, cfg.general);
    MovesCompose(s.positions, mid, mid[seller := b.updated], s.funding,
                 1, -collateral, assetId, synthetic, 1, collateral, assetId, -synthetic);
  }

  lemma {:induction false} BothSidesFunded(ps: seq<Position>, buyer: int, seller: int, funding: FundingInfo,
                                           assetId: int)
    requires ValidPositions(ps) && ValidIndices(funding.indices)
    requires 0 <= buyer < |ps| && 0 <= seller < |ps| && buyer != seller
    requires ApplyFunding(ps[buyer], funding).Done? && ApplyFunding(ps[seller], funding).Done?
    ensures Moves(ps, ps[buyer := ApplyFunding(ps[buyer], funding).value][seller := ApplyFunding(ps[seller],
        funding).value], funding, 2, 0, assetId, 0)
  {
    FundedLeafMoves(ps, buyer, funding, assetId);
    var mid := ps[buyer := ApplyFunding(ps[buyer], funding).value];
    FundedLeafMoves(mid, seller, funding, assetId);
    MovesCompose(ps, mid, mid[seller := ApplyFunding(ps[seller], funding).value], funding, 1, 0, assetId, 0, 1, 0,
                 assetId, 0);
  }

  lemma {:induction false} TryToTradeMoves(s: State, cfg: BatchConfig, buyer: int, seller: int, keyBuyer: int,
                                           keySeller: int, assetId: int, collateral: felt, synthetic: felt)
    requires Ready(s, cfg) && 0 <= buyer < |s.positions| && 0 <= seller < |s.positions| && buyer != seller
    requires TryToTrade(s, cfg, s.positions[buyer], s.positions[seller], keyBuyer, keySeller, assetId, collateral,
                        synthetic).Done?
    ensures var r := TryToTrade(s, cfg, s.positions[buyer], s.positions[seller], keyBuyer, keySeller, assetId,
                                collateral, synthetic).value;
      Moves(s.positions, s.positions[buyer := r.buyer][seller := r.seller], s.funding, 2, 0, assetId, 0)
  {
    hide UpdatePosition.Apply;
    var pb, ps := s.positions[buyer], s.positions[seller];
    var a := UpdatePosition.Apply(pb, keyBuyer, -collateral, assetId, synthetic, s.funding, s.prices,
                                  cfg.general).value;
    var b := UpdatePosition.Apply(ps, keySeller, collateral, assetId, -synthetic, s.funding, s.prices,
                                  cfg.general).value;
    if a.code == Success && b.code == Success {
      BothSidesMove(s, cfg, buyer, seller, a, b, keyBuyer, keySeller, assetId, collateral, synthetic);
    } else {
      ApplyFunds(pb, keyBuyer, -collateral, assetId, synthetic, s.funding, s.prices, cfg.general);
      ApplyFunds(ps, keySeller, collateral, assetId, -synthetic, s.funding, s.prices, cfg.general);
      BothSidesFunded(s.positions, buyer, seller, s.funding, assetId);
    }
  }

  lemma {:induction false} ForcedTradeMoves(s: State, cfg: BatchConfig, tx: Transaction)
    requires Ready(s, cfg) && tx.ForcedTrade? && ExecuteForcedTrade(s, cfg, tx).Done?
    ensures var t := ExecuteForcedTrade(s, cfg, tx).value;
      && ValidState(t) && SameMarket(s, t)
      && t.modifications == s.modifications
      && Moves(s.positions, t.positions, s.funding, 2, 0, tx.syntheticAssetId, 0)
  {
    var a, b := tx.positionIdA, tx.positionIdB;
    if tx.isPartyABuyingSynthetic {
      TryToTradeMoves(s, cfg, a, b, tx.publicKeyA, tx.publicKeyB, tx.syntheticAssetId, tx.amountCollateral,
                      tx.amountSynthetic);
    } else {
      TryToTradeMoves(s, cfg, b, a, tx.publicKeyB, tx.publicKeyA, tx.syntheticAssetId, tx.amountCollateral,
                      tx.amountSynthetic);
      var r := TryToTrade(s, cfg, s.positions[b], s.positions[a], tx.publicKeyB, tx.publicKeyA, tx.syntheticAssetId,
                          tx.amountCollateral, tx.amountSynthetic).value;
      assert s.positions[b := r.buyer][a := r.seller] == s.positions[a := r.seller][b := r.buyer];
    }
  }

  lemma {:induction false} LiquidatePositionMoves(s: State, cfg: BatchConfig, tx: Transaction)
    requires Ready(s, cfg) && tx.Liquidate? && LiquidatePosition(s, cfg, tx).Done?
    ensures var t := LiquidatePosition(s, cfg, tx).value;
      var buying := tx.liquidatorOrder.isBuyingSynthetic;
      && ValidState(t) && SameMarket(s, t)
      && t.modifications == s.modifications
      && Moves(s.positions, t.positions, s.funding, 2, if buying then tx.actualCollateral else -tx.actualCollateral,
               tx.liquidatorOrder.assetIdSynthetic, if buying then -tx.actualSynthetic else tx.actualSynthetic)
  {
    hide GetStatus, Is250Bit, GetAssetBalance, IsNnLe, UpdatePosition.Apply, ApplyFunding;
    var i := tx.liquidatedPositionId;
    var assetId := tx.liquidatorOrder.assetIdSynthetic;
    var c := if tx.liquidatorOrder.isBuyingSynthetic then tx.actualCollateral else -tx.actualCollateral;
    var d := if tx.liquidatorOrder.isBuyingSynthetic then -tx.actualSynthetic else tx.actualSynthetic;
    FundedLeafMoves(s.positions, i, s.funding, assetId);
    var funded := ApplyFunding(s.positions[i], s.funding).value;
    var mid := s.positions[i := funded];
    var u := UpdatePosition.Apply(funded, funded.publicKey, c, assetId, d, s.funding, s.prices, cfg.general).value;
    LeafMoves(mid, i, u, funded.publicKey, c, assetId, d, s.funding, s.prices, cfg.general);
    assert mid[i := u.updated] == s.positions[i := u.updated];
    MovesCompose(s.positions, mid, mid[i := u.updated], s.funding, 1, 0, assetId, 0, 1, c, assetId, d);
  }

  lemma {:induction false} LiquidateMoves(s: State, cfg: BatchConfig, tx: Transaction)
    requires Ready(s, cfg) && tx.Liquidate? && ExecuteLiquidate(s, cfg, tx).Done?
    ensures var t := ExecuteLiquidate(s, cfg, tx).value;
      && ValidState(t) && SameMarket(s, t)
      && t.modifications == s.modifications
      && Moves(s.positions, t.positions, s.funding, 4, 0, tx.liquidatorOrder.assetIdSynthetic, 0)
  {
    var o := tx.liquidatorOrder;
    LiquidatePositionMoves(s, cfg, tx);
    var s1 := LiquidatePosition(s, cfg, tx).value;
    LimitOrderMoves(s1, cfg, o, tx.actualCollateral, tx.actualSynthetic, tx.actualLiquidatorFee);
    var s2 := ExecuteLimitOrder(s1, cfg, o, tx.actualCollateral, tx.actualSynthetic, tx.actualLiquidatorFee).value;
    var c := if o.isBuyingSynthetic then tx.actualCollateral else -tx.actualCollateral;
    var d := if o.isBuyingSynthetic then -tx.actualSynthetic else tx.actualSynthetic;
    MovesCompose(s.positions, s1.positions, s2.positions, s.funding, 2, c, o.assetIdSynthetic, d,
                 2, -c, o.assetIdSynthetic, -d);
  }

  /** The two updates inside a deleverage, without its checks. */
  function DeleverageUpdates(s: State, cfg: BatchConfig, tx: Transaction): Outcome<State>
    requires tx.Deleverage?
  {
    var d := if tx.deleveragerIsBuyingSynthetic then tx.amountSynthetic else -tx.amountSynthetic;
    var c := if tx.deleveragerIsBuyingSynthetic then -tx.amountCollateral else tx.amountCollateral;
    var s1 :- UpdateOrAbort(s, cfg, tx.deleveragablePositionId, 0, -c, tx.syntheticAssetId, -d);
    UpdateOrAbort(s1, cfg, tx.deleveragerPositionId, 0, c, tx.syntheticAssetId, d)
  }

  lemma {:induction false} DeleverageIsTwoUpdates(s: State, cfg: BatchConfig, tx: Transaction)
    requires tx.Deleverage? && ExecuteDeleverage(s, cfg, tx).Done?
    ensures ExecuteDeleverage(s, cfg, tx) == DeleverageUpdates(s, cfg, tx)
  {
    hide UpdatePosition.Apply, ValidateDeleverage, IsAmount;
  }

  lemma {:induction false} DeleverageUpdatesMove(s: State, cfg: BatchConfig, tx: Transaction)
    requires Ready(s, cfg) && tx.Deleverage? && DeleverageUpdates(s, cfg, tx).Done?
    ensures var t := DeleverageUpdates(s, cfg, tx).value;
      && t == s.(positions := t.positions)
      && Ready(t, cfg)
      && Moves(s.positions, t.positions, s.funding, 2, 0, tx.syntheticAssetId, 0)
  {
    hide UpdateOrAbort, Moves;
    var d := if tx.deleveragerIsBuyingSynthetic then tx.amountSynthetic else -tx.amountSynthetic;
    var c := if tx.deleveragerIsBuyingSynthetic then -tx.amountCollateral else tx.amountCollateral;
    var id := tx.syntheticAssetId;
    UpdateOrAbortMoves(s, cfg, tx.deleveragablePositionId, 0, -c, id, -d);
    var s1 := UpdateOrAbort(s, cfg, tx.deleveragablePositionId, 0, -c, id, -d).value;
    UpdateOrAbortMoves(s1, cfg, tx.deleveragerPositionId, 0, c, id, d);
    var s2 := UpdateOrAbort(s1, cfg, tx.deleveragerPositionId, 0, c, id, d).value;
    MovesCompose(s.positions, s1.positions, s2.positions, s.funding, 1, -c, id, -d, 1, c, id, d);
  }

  lemma {:induction false} DeleverageMoves(s: State, cfg: BatchConfig, tx: Transaction)
    requires Ready(s, cfg) && tx.Deleverage? && ExecuteDeleverage(s, cfg, tx).Done?
    ensures var t := ExecuteDeleverage(s, cfg, tx).value;
      && ValidState(t) && SameMarket(s, t)
      && t.modifications == s.modifications
      && Moves(s.positions, t.positions, s.funding, 2, 0, tx.syntheticAssetId, 0)
  {
    hide ExecuteDeleverage, DeleverageUpdates, Moves;
    DeleverageIsTwoUpdates(s, cfg, tx);
    DeleverageUpdatesMove(s, cfg, tx);
  }
}
