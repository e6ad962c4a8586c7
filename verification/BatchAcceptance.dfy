/** When a transaction of the perpetual batch is accepted (execute_batch.cairo and transactions/), over the
    integers: times, amounts, signatures, orders and position updates. A flag that marks a forced request
    as invalid is accepted exactly when the request has to be refused. */
module BatchAcceptance {
  import opened Felt
  import opened PerpetualTypes
  import opened Funding
  import opened Status
  import opened Transition
  import opened UpdatePosition
  import opened UpdateAcceptance
  import opened MessageHashes
  import opened Orders
  import opened Batch
  import opened BatchInvariants
  import BatchAuthorization
  import BatchJournal
  import BatchRuns
  import DeleverageTightness
  import Ticks

  // ---- Parts of a transaction ----

  predicate Amount(a: int) {
    0 <= a < AMOUNT_UPPER_BOUND
  }

  predicate IsPosition(s: State, id: int) {
    0 <= id < |s.positions|
  }

  /** The update of one position is acceptable. */
  ghost predicate CanUpdate(s: State, cfg: BatchConfig, id: int, requestKey: int, collateralDelta: int, assetId: int,
                            syntheticDelta: int)
  {
    && ValidMarket(s.prices, cfg.general)
    && IsPosition(s, id)
    && Acceptable(s.positions[id], requestKey, collateralDelta, assetId, syntheticDelta, s.funding, s.prices,
                  cfg.general)
  }

  /** The update of one position is answered, by acceptance or by a return code. */
  ghost predicate AnswersUpdate(s: State, cfg: BatchConfig, id: int, requestKey: int, collateralDelta: int,
                                assetId: int, syntheticDelta: int)
  {
    && ValidMarket(s.prices, cfg.general)
    && IsPosition(s, id)
    && Answered(s.positions[id], requestKey, collateralDelta, assetId, syntheticDelta, s.funding, s.prices,
                cfg.general)
  }

  ghost predicate CanMoveCollateral(s: State, cfg: BatchConfig, id: int, requestKey: int, collateralDelta: int) {
    CanUpdate(s, cfg, id, requestKey, collateralDelta, NO_SYNTHETIC_DELTA_ASSET_ID, 0)
  }

  /** A signed order that has not expired, with room for the amount. */
  predicate OrderAllowed(orders: OrderBook, hash: int, base: OrderBase, minExpiration: int, amount: int, full: int,
                         verify: Verifier)
  {
    && 0 <= hash < SIGNED_MESSAGE_BOUND
    && verify(hash, base.publicKey, base.signatureR, base.signatureS)
    && 0 <= base.expirationTimestamp - minExpiration < RC_BOUND
    && EXPIRATION_TIMESTAMP_UPPER_BOUND - RC_BOUND <= base.expirationTimestamp < EXPIRATION_TIMESTAMP_UPPER_BOUND
    && 0 <= base.nonce < NONCE_UPPER_BOUND
    && 0 <= amount && Fulfilled(orders, ExtractOrderId(hash)) + amount <= full < AMOUNT_UPPER_BOUND
  }

  // ---- Transactions ----

  ghost predicate DepositAllowed(s: State, cfg: BatchConfig, tx: Transaction)
    requires tx.Deposit?
  {
    Amount(tx.amount) && CanMoveCollateral(s, cfg, tx.positionId, tx.publicKey, tx.amount)
  }

  ghost predicate WithdrawalAllowed(s: State, cfg: BatchConfig, tx: Transaction)
    requires tx.Withdrawal?
  {
    && OrderAllowed(s.orders, BatchAuthorization.WithdrawalMessage(cfg, tx.base, tx.positionId, tx.amount, tx.ownerKey),
                    tx.base, cfg.minExpiration, tx.amount, tx.amount, cfg.verify)
    && CanMoveCollateral(s, cfg, tx.positionId, tx.base.publicKey, -tx.amount)
  }

  /** Marked valid, the withdrawal must be acceptable; marked invalid, it must not. */
  ghost predicate ForcedWithdrawalAllowed(s: State, cfg: BatchConfig, tx: Transaction)
    requires tx.ForcedWithdrawal?
  {
    && Amount(tx.amount)
    && AnswersUpdate(s, cfg, tx.positionId, tx.publicKey, -tx.amount, NO_SYNTHETIC_DELTA_ASSET_ID, 0)
    && (tx.isValid <==> CanMoveCollateral(s, cfg, tx.positionId, tx.publicKey, -tx.amount))
  }

  ghost predicate TransferAllowed(s: State, cfg: BatchConfig, t: Transfer, condition: int) {
    && t.senderPositionId != t.receiverPositionId
    && t.assetId == cfg.general.collateralAssetId
    && OrderAllowed(s.orders, BatchAuthorization.TransferMessage(cfg, t, condition), t.base, cfg.minExpiration,
                    t.amount, t.amount, cfg.verify)
    && CanMoveCollateral(s, cfg, t.senderPositionId, t.base.publicKey, -t.amount)
    && CanMoveCollateral(s, cfg, t.receiverPositionId, t.receiverPublicKey, t.amount)
  }

  /** A fill of a limit order: the fee position takes the fee, the party trades. */
  ghost predicate FillAllowed(s: State, cfg: BatchConfig, o: LimitOrder, collateral: int, synthetic: int, fee: int) {
    && o.positionId != cfg.general.feePositionId
    && o.assetIdCollateral == cfg.general.collateralAssetId
    && FairnessAssumptions(o, collateral, synthetic, fee) && Fair(o, collateral, synthetic, fee)
    && OrderAllowed(s.orders, LimitOrderHash(cfg.pedersen, ExchangeFields(o)), o.base, cfg.minExpiration, synthetic,
                    o.amountSynthetic, cfg.verify)
    && CanMoveCollateral(s, cfg, cfg.general.feePositionId, cfg.general.feePublicKey, fee)
    && CanUpdate(s, cfg, o.positionId, o.base.publicKey,
                 (if o.isBuyingSynthetic then -collateral else collateral) - fee, o.assetIdSynthetic,
                 if o.isBuyingSynthetic then synthetic else -synthetic)
  }

  /** The buyer's order, then the seller's on the state it leaves. */
  ghost predicate TradeAllowed(s: State, cfg: BatchConfig, tx: Transaction)
    requires tx.Trade?
  {
    var s1 := ExecuteLimitOrder(s, cfg, tx.partyA, tx.actualCollateral, tx.actualSynthetic, tx.actualAFee);
    && Amount(tx.actualCollateral) && Amount(tx.actualAFee) && Amount(tx.actualBFee)
    && tx.partyA.isBuyingSynthetic && !tx.partyB.isBuyingSynthetic
    && tx.partyA.assetIdSynthetic == tx.partyB.assetIdSynthetic
    && tx.partyA.positionId != tx.partyB.positionId
    && FillAllowed(s, cfg, tx.partyA, tx.actualCollateral, tx.actualSynthetic, tx.actualAFee)
    && s1.Done? && FillAllowed(s1.value, cfg, tx.partyB, tx.actualCollateral, tx.actualSynthetic, tx.actualBFee)
  }

  /** What one side of a forced trade asks for. */
  datatype Request = Request(id: int, key: int, collateral: int, synthetic: int)

  function RequestOf(tx: Transaction, ofPartyA: bool): Request
    requires tx.ForcedTrade?
  {
    var id := if ofPartyA then tx.positionIdA else tx.positionIdB;
    var key := if ofPartyA then tx.publicKeyA else tx.publicKeyB;
    if ofPartyA == tx.isPartyABuyingSynthetic then Request(id, key, -tx.amountCollateral, tx.amountSynthetic)
    else Request(id, key, tx.amountCollateral, -tx.amountSynthetic)
  }

  ghost predicate CanGrant(s: State, cfg: BatchConfig, r: Request, assetId: int) {
    CanUpdate(s, cfg, r.id, r.key, r.collateral, assetId, r.synthetic)
  }

  ghost predicate CanAnswer(s: State, cfg: BatchConfig, r: Request, assetId: int) {
    AnswersUpdate(s, cfg, r.id, r.key, r.collateral, assetId, r.synthetic)
  }

  /** Marked valid, both sides must be acceptable; marked invalid, one must not be. */
  ghost predicate ForcedTradeAllowed(s: State, cfg: BatchConfig, tx: Transaction)
    requires tx.ForcedTrade?
  {
    var a, b := RequestOf(tx, true), RequestOf(tx, false);
    && Amount(tx.amountCollateral) && Amount(tx.amountSynthetic) && tx.positionIdA != tx.positionIdB
    && CanAnswer(s, cfg, a, tx.syntheticAssetId) && CanAnswer(s, cfg, b, tx.syntheticAssetId)
    && (tx.isValid <==> CanGrant(s, cfg, a, tx.syntheticAssetId) && CanGrant(s, cfg, b, tx.syntheticAssetId))
  }

  /** The position holds what it is to give, on the right side. */
  predicate Holds(p: Position, id: int, amount: int, givesLong: bool) {
    0 <= amount <= if givesLong then Holding(p.assets, id) else -Holding(p.assets, id)
  }

  /** A position that is not well leveraged gives what it holds. */
  ghost predicate LiquidationAllowed(s: State, cfg: BatchConfig, tx: Transaction)
    requires tx.Liquidate?
  {
    var o, id := tx.liquidatorOrder, tx.liquidatedPositionId;
    && ValidMarket(s.prices, cfg.general) && IsPosition(s, id)
    && ApplyFunding(s.positions[id], s.funding).Done?
    && var funded := ApplyFunding(s.positions[id], s.funding).value;
    && StatusInRange(funded, s.prices, cfg.general) && !WellLeveraged(funded, s.prices, cfg.general)
    && Holds(s.positions[id], o.assetIdSynthetic, tx.actualSynthetic, o.isBuyingSynthetic)
    && CanUpdate(s, cfg, id, s.positions[id].publicKey,
                 if o.isBuyingSynthetic then tx.actualCollateral else -tx.actualCollateral, o.assetIdSynthetic,
                 if o.isBuyingSynthetic then -tx.actualSynthetic else tx.actualSynthetic)
  }

  /** The liquidation, then the liquidator's order on the state it leaves. */
  ghost predicate LiquidateAllowed(s: State, cfg: BatchConfig, tx: Transaction)
    requires tx.Liquidate?
  {
    var s1 := LiquidatePosition(s, cfg, tx);
    && Amount(tx.actualCollateral) && Amount(tx.actualLiquidatorFee)
    && tx.liquidatorOrder.positionId != tx.liquidatedPositionId
    && LiquidationAllowed(s, cfg, tx)
    && s1.Done?
    && FillAllowed(s1.value, cfg, tx.liquidatorOrder, tx.actualCollateral, tx.actualSynthetic, tx.actualLiquidatorFee)
  }

  /** Both updates are acceptable, the deleverager holds what it gives, and the trade is the tightest one
      that the insolvent position admits. */
  ghost predicate DeleverageAllowed(s: State, cfg: BatchConfig, tx: Transaction)
    requires tx.Deleverage?
  {
    var c, d := DeleverageTightness.CollateralDelta(tx), DeleverageTightness.SyntheticDelta(tx);
    && Amount(tx.amountSynthetic) && Amount(tx.amountCollateral)
    && tx.deleveragerPositionId != tx.deleveragablePositionId
    && CanUpdate(s, cfg, tx.deleveragablePositionId, 0, c, tx.syntheticAssetId, d)
    && CanUpdate(s, cfg, tx.deleveragerPositionId, 0, -c, tx.syntheticAssetId, -d)
    && Holds(s.positions[tx.deleveragerPositionId], tx.syntheticAssetId, tx.amountSynthetic,
             !tx.deleveragerIsBuyingSynthetic)
    && var u := DeleverageTightness.DeleveragableUpdate(s, cfg, tx, c);
    u.Done? && DeleverageTightness.Tight(u.value.funded, u.value.updated, s.prices, cfg.general)
  }

  /** The system time does not fall. */
  predicate InOrder(s: State, timestamp: int) {
    0 <= timestamp - s.systemTime < RC_BOUND
  }

  /** The last funding tick is at most the validity period old. */
  predicate Fresh(s: State, cfg: BatchConfig) {
    0 <= s.funding.timestamp + cfg.general.fundingValidityPeriod - s.systemTime < RC_BOUND
  }

  predicate IsTick(tx: Transaction) {
    tx.FundingTick? || tx.OraclePricesTick?
  }

  ghost predicate Allowed(s: State, cfg: BatchConfig, tx: Transaction) {
    && (IsTick(tx) || Fresh(s, cfg))
    && match tx
       case Deposit(_, _, _) => DepositAllowed(s, cfg, tx)
       case Withdrawal(_, _, _, _) => WithdrawalAllowed(s, cfg, tx)
       case ForcedWithdrawal(_, _, _, _) => ForcedWithdrawalAllowed(s, cfg, tx)
       case PlainTransfer(t) => TransferAllowed(s, cfg, t, 0)
       case ConditionalTransfer(t, condition) => TransferAllowed(s, cfg, t, condition)
       case Trade(_, _, _, _, _, _) => TradeAllowed(s, cfg, tx)
       case ForcedTrade(_, _, _, _, _, _, _, _, _) => ForcedTradeAllowed(s, cfg, tx)
       case Liquidate(_, _, _, _, _) => LiquidateAllowed(s, cfg, tx)
       case Deleverage(_, _, _, _, _, _) => DeleverageAllowed(s, cfg, tx)
       case FundingTick(indices, timestamp, tape) =>
         InOrder(s, timestamp) && ValidateTick(s.funding.indices, indices, s.prices, -1, cfg.general.maxFundingRate,
                                               timestamp - s.funding.timestamp, tape).Done?
       case OraclePricesTick(prices, timestamp) => InOrder(s, timestamp) && Ticks.TickPricesOk(prices, -1, cfg)
  }

  // ---- The parts decide ----

  lemma {:induction false} AmountExact(a: felt)
    ensures IsAmount(a) <==> Amount(a)
  {
  }

  /** One update succeeds if and only if it is acceptable. */
  lemma {:induction false} UpdateExactly(s: State, cfg: BatchConfig, id: int, requestKey: int, collateralDelta: felt,
                                         assetId: int, syntheticDelta: felt)
    requires Ready(s, cfg)
    ensures var u := UpdateInDict(s, cfg, id, requestKey, collateralDelta, assetId, syntheticDelta);
      && (u.Done? && u.value.code == Success <==>
            CanUpdate(s, cfg, id, requestKey, collateralDelta, assetId, syntheticDelta))
      && (u.Done? <==> AnswersUpdate(s, cfg, id, requestKey, collateralDelta, assetId, syntheticDelta))
      && (UpdateOrAbort(s, cfg, id, requestKey, collateralDelta, assetId, syntheticDelta).Done? <==>
            CanUpdate(s, cfg, id, requestKey, collateralDelta, assetId, syntheticDelta))
  {
    hide UpdatePosition.Apply, Acceptable, Answered;
    if IsPosition(s, id) {
      AcceptedExactly(s.positions[id], requestKey, collateralDelta, assetId, syntheticDelta, s.funding, s.prices,
                      cfg.general);
    }
  }

  /** The checks on a signed order decide it. */
  lemma {:induction false} OrderExactly(orders: OrderBook, hash: int, base: OrderBase, minExpiration: felt,
                                        amount: felt, full: felt, verify: Verifier)
    requires ValidOrders(orders)
    ensures ValidateOrderAndUpdateFulfillment(orders, hash, base, minExpiration, amount, full, verify).Done? <==>
            OrderAllowed(orders, hash, base, minExpiration, amount, full, verify)
  {
    FulfillmentExact(orders, hash, amount, full);
    ExpirationExact(base.expirationTimestamp, minExpiration);
    hide UpdateOrderFulfillment, IsInRange;
  }

  lemma {:induction false} ExpirationExact(expiration: felt, minExpiration: felt)
    ensures IsInRange(expiration, minExpiration, EXPIRATION_TIMESTAMP_UPPER_BOUND) <==>
            && 0 <= expiration - minExpiration < RC_BOUND
            && EXPIRATION_TIMESTAMP_UPPER_BOUND - RC_BOUND <= expiration < EXPIRATION_TIMESTAMP_UPPER_BOUND
  {
  }

  /** Updates of other positions, and the order book, do not matter to an update. */
  lemma {:induction false} UpdateIsLocal(s: State, t: State, cfg: BatchConfig, id: int, requestKey: int,
                                         collateralDelta: int, assetId: int, syntheticDelta: int)
    requires |t.positions| == |s.positions| && t.funding == s.funding && t.prices == s.prices
    requires IsPosition(s, id) ==> t.positions[id] == s.positions[id]
    ensures CanUpdate(t, cfg, id, requestKey, collateralDelta, assetId, syntheticDelta) <==>
            CanUpdate(s, cfg, id, requestKey, collateralDelta, assetId, syntheticDelta)
  {
    hide Acceptable;
  }

  /** The state after one update, with one position replaced, is ready for the next. */
  lemma {:induction false} UpdatedIsReady(s: State, cfg: BatchConfig, id: int, requestKey: int,
                                          collateralDelta: felt, assetId: int, syntheticDelta: felt)
    requires Ready(s, cfg)
    requires UpdateOrAbort(s, cfg, id, requestKey, collateralDelta, assetId, syntheticDelta).Done?
    ensures var t := UpdateOrAbort(s, cfg, id, requestKey, collateralDelta, assetId, syntheticDelta).value;
      && Ready(t, cfg) && IsPosition(s, id)
      && |t.positions| == |s.positions| && t == s.(positions := s.positions[id := t.positions[id]])
  {
    hide UpdatePosition.Apply, Moves;
    UpdateOrAbortMoves(s, cfg, id, requestKey, collateralDelta, assetId, syntheticDelta);
    var t := UpdateOrAbort(s, cfg, id, requestKey, collateralDelta, assetId, syntheticDelta).value;
    MovesIsValid(s.positions, t.positions, s.funding, 1, collateralDelta, assetId, syntheticDelta);
  }

  lemma {:induction false} MovesIsValid(a: seq<Position>, b: seq<Position>, funding: FundingInfo, n: nat,
                                        collateral: int, id: int, synthetic: int)
    requires Moves(a, b, funding, n, collateral, id, synthetic)
    ensures ValidPositions(b) && |b| == |a|
  {
  }

  /** Two updates of different positions succeed in turn if and only if each is acceptable at first. */
  lemma {:induction false} TwoUpdates(s: State, cfg: BatchConfig, id1: int, key1: int, c1: felt, id2: int, key2: int,
                                      c2: felt, assetId1: int, d1: felt, assetId2: int, d2: felt)
    requires Ready(s, cfg) && id1 != id2
    ensures var first := UpdateOrAbort(s, cfg, id1, key1, c1, assetId1, d1);
      first.Done? && UpdateOrAbort(first.value, cfg, id2, key2, c2, assetId2, d2).Done? <==>
        CanUpdate(s, cfg, id1, key1, c1, assetId1, d1) && CanUpdate(s, cfg, id2, key2, c2, assetId2, d2)
  {
    hide UpdateOrAbort, CanUpdate, Ready;
    UpdateExactly(s, cfg, id1, key1, c1, assetId1, d1);
    var first := UpdateOrAbort(s, cfg, id1, key1, c1, assetId1, d1);
    if first.Done? {
      UpdatedIsReady(s, cfg, id1, key1, c1, assetId1, d1);
      UpdateExactly(first.value, cfg, id2, key2, c2, assetId2, d2);
      UpdateIsLocal(s, first.value, cfg, id2, key2, c2, assetId2, d2);
    }
  }

  lemma {:induction false} OtherBookIsReady(s: State, cfg: BatchConfig, orders: OrderBook)
    requires Ready(s, cfg) && ValidOrders(orders)
    ensures Ready(s.(orders := orders), cfg)
  {
  }

  // ---- Each transaction ----

  lemma {:induction false} DepositExactly(s: State, cfg: BatchConfig, tx: Transaction)
    requires Ready(s, cfg) && tx.Deposit?
    ensures ExecuteDeposit(s, cfg, tx).Done? <==> DepositAllowed(s, cfg, tx)
  {
    hide UpdateOrAbort, CanUpdate, IsAmount;
    AmountExact(tx.amount);
    if Amount(tx.amount) {
      UpdateExactly(s, cfg, tx.positionId, tx.publicKey, tx.amount, NO_SYNTHETIC_DELTA_ASSET_ID, 0);
    }
  }

  lemma {:induction false} WithdrawalExactly(s: State, cfg: BatchConfig, tx: Transaction)
    requires Ready(s, cfg) && tx.Withdrawal?
    ensures ExecuteWithdrawal(s, cfg, tx).Done? <==> WithdrawalAllowed(s, cfg, tx)
  {
    hide UpdateOrAbort, CanUpdate, ValidateOrderAndUpdateFulfillment, OrderAllowed, WithdrawalHash;
    var hash := BatchAuthorization.WithdrawalMessage(cfg, tx.base, tx.positionId, tx.amount, tx.ownerKey);
    OrderExactly(s.orders, hash, tx.base, cfg.minExpiration, tx.amount, tx.amount, cfg.verify);
    var book := ValidateOrderAndUpdateFulfillment(s.orders, hash, tx.base, cfg.minExpiration, tx.amount, tx.amount,
                                                  cfg.verify);
    if book.Done? {
      OrdersStayValid(s.orders, hash, tx.base, cfg.minExpiration, tx.amount, tx.amount, cfg.verify);
      var s1 := s.(orders := book.value);
      OtherBookIsReady(s, cfg, book.value);
      UpdateExactly(s1, cfg, tx.positionId, tx.base.publicKey, -tx.amount, NO_SYNTHETIC_DELTA_ASSET_ID, 0);
      UpdateIsLocal(s, s1, cfg, tx.positionId, tx.base.publicKey, -tx.amount, NO_SYNTHETIC_DELTA_ASSET_ID, 0);
    }
  }

  /** A forced withdrawal marked valid is accepted if and only if the withdrawal is acceptable; marked
      invalid, if and only if it is answered and not acceptable. */
  lemma {:induction false} ForcedWithdrawalExactly(s: State, cfg: BatchConfig, tx: Transaction)
    requires Ready(s, cfg) && tx.ForcedWithdrawal?
    ensures ExecuteForcedWithdrawal(s, cfg, tx).Done? <==> ForcedWithdrawalAllowed(s, cfg, tx)
  {
    hide UpdateInDict, CanUpdate, AnswersUpdate, IsAmount;
    AmountExact(tx.amount);
    UpdateExactly(s, cfg, tx.positionId, tx.publicKey, -tx.amount, NO_SYNTHETIC_DELTA_ASSET_ID, 0);
  }

  lemma {:induction false} TransferExactly(s: State, cfg: BatchConfig, t: Transfer, condition: int)
    requires Ready(s, cfg)
    ensures ExecuteTransfer(s, cfg, t, condition).Done? <==> TransferAllowed(s, cfg, t, condition)
  {
    hide UpdateOrAbort, CanUpdate, ValidateOrderAndUpdateFulfillment, TransferHash, IsAmount, Ready;
    AmountExact(t.amount);
    if t.senderPositionId != t.receiverPositionId {
      var hash := BatchAuthorization.TransferMessage(cfg, t, condition);
      ReadyParts(s, cfg);
      OrderExactly(s.orders, hash, t.base, cfg.minExpiration, t.amount, t.amount, cfg.verify);
      var book := ValidateOrderAndUpdateFulfillment(s.orders, hash, t.base, cfg.minExpiration, t.amount, t.amount,
                                                    cfg.verify);
      if book.Done? { FullIsAmount(s.orders, hash, t.base, cfg.minExpiration, t.amount, cfg.verify); }
      hide OrderAllowed;
      if book.Done? {
        OrdersStayValid(s.orders, hash, t.base, cfg.minExpiration, t.amount, t.amount, cfg.verify);
        var s1 := s.(orders := book.value);
        OtherBookIsReady(s, cfg, book.value);
        TwoUpdates(s1, cfg, t.senderPositionId, t.base.publicKey, -t.amount, t.receiverPositionId,
                   t.receiverPublicKey, t.amount, NO_SYNTHETIC_DELTA_ASSET_ID, 0, NO_SYNTHETIC_DELTA_ASSET_ID, 0);
        UpdateIsLocal(s, s1, cfg, t.senderPositionId, t.base.publicKey, -t.amount, NO_SYNTHETIC_DELTA_ASSET_ID, 0);
        UpdateIsLocal(s, s1, cfg, t.receiverPositionId, t.receiverPublicKey, t.amount, NO_SYNTHETIC_DELTA_ASSET_ID, 0);
      }
    }
  }

  lemma {:induction false} ReadyParts(s: State, cfg: BatchConfig)
    requires Ready(s, cfg)
    ensures ValidOrders(s.orders) && ValidMarket(s.prices, cfg.general)
  {
  }

  /** The capacity of a one-time order bounds its amount. */
  lemma {:induction false} FullIsAmount(orders: OrderBook, hash: int, base: OrderBase, minExpiration: int, amount: int,
                                        verify: Verifier)
    requires ValidOrders(orders) && OrderAllowed(orders, hash, base, minExpiration, amount, amount, verify)
    ensures Amount(amount)
  {
  }

  lemma {:induction false} FillAmounts(o: LimitOrder, collateral: felt, synthetic: felt, fee: felt)
    requires Amount(collateral) && Amount(fee) && synthetic <= o.amountSynthetic < AMOUNT_UPPER_BOUND
    ensures IsInRange(o.amountCollateral, 1, AMOUNT_UPPER_BOUND) && IsAmount(o.amountFee) && IsLe(1, synthetic) <==>
            FairnessAssumptions(o, collateral, synthetic, fee)
  {
  }

  lemma {:induction false} AllowedFits(orders: OrderBook, hash: int, base: OrderBase, minExpiration: int, amount: int,
                                       full: int, verify: Verifier)
    requires ValidOrders(orders) && OrderAllowed(orders, hash, base, minExpiration, amount, full, verify)
    ensures amount <= full < AMOUNT_UPPER_BOUND
  {
  }

  /** A fill is accepted if and only if it is fair, its order is signed, live and open, and both positions
      can be updated. */
  lemma {:induction false} FillExactly(s: State, cfg: BatchConfig, o: LimitOrder, collateral: felt, synthetic: felt,
                                       fee: felt)
    requires Ready(s, cfg) && Amount(collateral) && Amount(fee)
    ensures ExecuteLimitOrder(s, cfg, o, collateral, synthetic, fee).Done? <==>
            FillAllowed(s, cfg, o, collateral, synthetic, fee)
  {
    hide UpdateOrAbort, CanUpdate, ValidateOrderAndUpdateFulfillment, LimitOrderHash, IsAmount, IsInRange, IsLe, Ready,
      ValidateFairness, Fair, FairnessAssumptions, OrderAllowed;
    var hash := LimitOrderHash(cfg.pedersen, ExchangeFields(o));
    ReadyParts(s, cfg);
    OrderExactly(s.orders, hash, o.base, cfg.minExpiration, synthetic, o.amountSynthetic, cfg.verify);
    var book := ValidateOrderAndUpdateFulfillment(s.orders, hash, o.base, cfg.minExpiration, synthetic,
                                                  o.amountSynthetic, cfg.verify);
    if o.positionId != cfg.general.feePositionId && book.Done? {
      AllowedFits(s.orders, hash, o.base, cfg.minExpiration, synthetic, o.amountSynthetic, cfg.verify);
      FillAmounts(o, collateral, synthetic, fee);
      if FairnessAssumptions(o, collateral, synthetic, fee) {
        FairnessExact(o, collateral, synthetic, fee);
        OrdersStayValid(s.orders, hash, o.base, cfg.minExpiration, synthetic, o.amountSynthetic, cfg.verify);
        var s1 := s.(orders := book.value);
        OtherBookIsReady(s, cfg, book.value);
        PartyUpdates(s1, cfg, o, collateral, synthetic, fee);
        PartyUpdatesAreLocal(s, s1, cfg, o, collateral, synthetic, fee);
      }
    }
  }

  /** The two updates of a fill. */
  ghost predicate CanFill(s: State, cfg: BatchConfig, o: LimitOrder, collateral: int, synthetic: int, fee: int) {
    && CanMoveCollateral(s, cfg, cfg.general.feePositionId, cfg.general.feePublicKey, fee)
    && CanUpdate(s, cfg, o.positionId, o.base.publicKey,
                 (if o.isBuyingSynthetic then -collateral else collateral) - fee, o.assetIdSynthetic,
                 if o.isBuyingSynthetic then synthetic else -synthetic)
  }

  lemma {:induction false} PartyUpdates(s: State, cfg: BatchConfig, o: LimitOrder, collateral: felt, synthetic: felt,
                                        fee: felt)
    requires Ready(s, cfg) && Amount(collateral) && Amount(fee) && o.positionId != cfg.general.feePositionId
    ensures FillOrder(s, cfg, o, collateral, synthetic, fee).Done? <==> CanFill(s, cfg, o, collateral, synthetic, fee)
  {
    hide UpdateOrAbort, CanUpdate, Ready;
    TwoUpdates(s, cfg, cfg.general.feePositionId, cfg.general.feePublicKey, fee, o.positionId, o.base.publicKey,
               (if o.isBuyingSynthetic then -collateral else collateral) - fee, NO_SYNTHETIC_DELTA_ASSET_ID, 0,
               o.assetIdSynthetic, if o.isBuyingSynthetic then synthetic else -synthetic);
  }

  lemma {:induction false} PartyUpdatesAreLocal(s: State, t: State, cfg: BatchConfig, o: LimitOrder, collateral: int,
                                                synthetic: int, fee: int)
    requires t == s.(orders := t.orders)
    ensures CanFill(t, cfg, o, collateral, synthetic, fee) <==> CanFill(s, cfg, o, collateral, synthetic, fee)
  {
    hide Acceptable;
  }

  lemma {:induction false} TradeExactly(s: State, cfg: BatchConfig, tx: Transaction)
    requires Ready(s, cfg) && tx.Trade?
    ensures ExecuteTrade(s, cfg, tx).Done? <==> TradeAllowed(s, cfg, tx)
  {
    hide ExecuteLimitOrder, FillAllowed, Ready, IsAmount, Moves;
    AmountExact(tx.actualCollateral);
    AmountExact(tx.actualAFee);
    AmountExact(tx.actualBFee);
    if Amount(tx.actualCollateral) && Amount(tx.actualAFee) && Amount(tx.actualBFee) {
      FillExactly(s, cfg, tx.partyA, tx.actualCollateral, tx.actualSynthetic, tx.actualAFee);
      var s1 := ExecuteLimitOrder(s, cfg, tx.partyA, tx.actualCollateral, tx.actualSynthetic, tx.actualAFee);
      if s1.Done? {
        LimitOrderMoves(s, cfg, tx.partyA, tx.actualCollateral, tx.actualSynthetic, tx.actualAFee);
        FillExactly(s1.value, cfg, tx.partyB, tx.actualCollateral, tx.actualSynthetic, tx.actualBFee);
      }
    }
  }

  /** A forced trade marked valid is accepted if and only if both sides are acceptable; marked invalid, if
      and only if both are answered and one of them is not acceptable. */
  lemma {:induction false} ForcedTradeExactly(s: State, cfg: BatchConfig, tx: Transaction)
    requires Ready(s, cfg) && tx.ForcedTrade?
    ensures ExecuteForcedTrade(s, cfg, tx).Done? <==> ForcedTradeAllowed(s, cfg, tx)
  {
    hide UpdatePosition.Apply, Acceptable, Answered, IsAmount;
    AmountExact(tx.amountCollateral);
    AmountExact(tx.amountSynthetic);
    var a, b := RequestOf(tx, true), RequestOf(tx, false);
    if IsPosition(s, a.id) && IsPosition(s, b.id) {
      AcceptedExactly(s.positions[a.id], a.key, a.collateral, tx.syntheticAssetId, a.synthetic, s.funding, s.prices,
                      cfg.general);
      AcceptedExactly(s.positions[b.id], b.key, b.collateral, tx.syntheticAssetId, b.synthetic, s.funding, s.prices,
                      cfg.general);
    }
  }

  /** The liquidated position is updated as from its stored value: funding it twice changes nothing. */
  lemma {:induction false} FundedUpdate(p: Position, requestKey: int, collateralDelta: int, id: int, delta: int,
                                        funding: FundingInfo, prices: seq<OraclePrice>, config: GeneralConfig)
    requires ValidPosition(p) && ValidIndices(funding.indices) && ApplyFunding(p, funding).Done?
    ensures var funded := ApplyFunding(p, funding).value;
      UpdatePosition.Apply(funded, requestKey, collateralDelta, id, delta, funding, prices, config) ==
      UpdatePosition.Apply(p, requestKey, collateralDelta, id, delta, funding, prices, config)
  {
    FundingRoundsDown(p, funding);
    FundingIdempotent(ApplyFunding(p, funding).value, funding);
    hide ApplyFunding, ChangeFunded, IsAssetIdTradable;
  }

  /** The balance check of liquidate and deleverage decides that the position holds what it gives. */
  lemma {:induction false} HoldsExact(p: Position, funded: Position, id: int, amount: felt, givesLong: bool)
    requires ValidAssets(funded.assets) && Holding(funded.assets, id) == Holding(p.assets, id)
    ensures IsNnLe(amount, if givesLong then GetAssetBalance(funded, id) else -GetAssetBalance(funded, id)) <==>
            Holds(p, id, amount, givesLong)
  {
    AssetBalanceIsHolding(funded, id);
    DeleverageTightness.BalanceInRange(funded.assets, id);
    hide Holding, GetAssetBalance;
  }

  /** The field checks on the status decide that the position is not well leveraged. */
  lemma {:induction false} UnderLeveragedExact(f: Position, prices: seq<OraclePrice>, config: GeneralConfig)
    requires ValidMarket(prices, config) && StoredPosition(f)
    ensures var status := GetStatus(f, prices, config);
      && status.Done? && status.value.code == Success
      && Is250Bit(status.value.tr - (status.value.tv * FXP_32_ONE + 1)) <==>
        StatusInRange(f, prices, config) && !WellLeveraged(f, prices, config)
  {
    StatusExact(f, prices, config);
    if StatusInRange(f, prices, config) {
      RiskBound(f.assets, prices, config);
      DeleverageTightness.UnderLeveraged(Value(f, prices, config), Risk(f.assets, prices, config));
    }
  }

  /** The liquidated position is updated if and only if it is not well leveraged, holds what it gives, and
      the update is acceptable. */
  lemma {:induction false} LiquidationExactly(s: State, cfg: BatchConfig, tx: Transaction)
    requires Ready(s, cfg) && tx.Liquidate? && Amount(tx.actualCollateral)
    ensures LiquidatePosition(s, cfg, tx).Done? <==> LiquidationAllowed(s, cfg, tx)
  {
    hide UpdatePosition.Apply, Acceptable, ApplyFunding, GetStatus, Is250Bit, IsNnLe, GetAssetBalance, Holds,
      WellLeveraged, StatusInRange;
    var o, id := tx.liquidatorOrder, tx.liquidatedPositionId;
    if IsPosition(s, id) && ApplyFunding(s.positions[id], s.funding).Done? {
      var p := s.positions[id];
      var c := if o.isBuyingSynthetic then tx.actualCollateral else -tx.actualCollateral;
      var d := if o.isBuyingSynthetic then -tx.actualSynthetic else tx.actualSynthetic;
      FundingRoundsDown(p, s.funding);
      var f := ApplyFunding(p, s.funding).value;
      UnderLeveragedExact(f, s.prices, cfg.general);
      HoldsExact(p, f, o.assetIdSynthetic, tx.actualSynthetic, o.isBuyingSynthetic);
      FundedUpdate(p, p.publicKey, c, o.assetIdSynthetic, d, s.funding, s.prices, cfg.general);
      AcceptedExactly(p, p.publicKey, c, o.assetIdSynthetic, d, s.funding, s.prices, cfg.general);
    }
  }

  lemma {:induction false} LiquidateExactly(s: State, cfg: BatchConfig, tx: Transaction)
    requires Ready(s, cfg) && tx.Liquidate?
    ensures ExecuteLiquidate(s, cfg, tx).Done? <==> LiquidateAllowed(s, cfg, tx)
  {
    hide ExecuteLimitOrder, FillAllowed, ValidState, IsAmount, Moves, LiquidatePosition, LiquidationAllowed;
    AmountExact(tx.actualCollateral);
    AmountExact(tx.actualLiquidatorFee);
    if Amount(tx.actualCollateral) && Amount(tx.actualLiquidatorFee) {
      LiquidationExactly(s, cfg, tx);
      var s1 := LiquidatePosition(s, cfg, tx);
      if s1.Done? {
        LiquidatePositionMoves(s, cfg, tx);
        FillExactly(s1.value, cfg, tx.liquidatorOrder, tx.actualCollateral, tx.actualSynthetic,
                    tx.actualLiquidatorFee);
      }
    }
  }

  /** The checks on both statuses decide tightness. */
  lemma {:induction false} TightExact(funded: Position, updated: Position, prices: seq<OraclePrice>,
                                      config: GeneralConfig)
    requires ValidMarket(prices, config) && StoredPosition(funded) && StoredPosition(updated)
    ensures var s0, s1 := GetStatus(funded, prices, config), GetStatus(updated, prices, config);
      && s0.Done? && s0.value.code == Success && IsLe(s0.value.tv, -1)
      && s1.Done? && s1.value.code == Success
      && DeleverageIsTight(s0.value.tv, s0.value.tr, s1.value.tv, s1.value.tr) <==>
        DeleverageTightness.Tight(funded, updated, prices, config)
  {
    hide GetStatus, DeleverageIsTight, Value, Risk, IsLe;
    StatusExact(funded, prices, config);
    StatusExact(updated, prices, config);
    var s0, s1 := GetStatus(funded, prices, config), GetStatus(updated, prices, config);
    if s0.Done? && s1.Done? && s0.value.code == Success && s1.value.code == Success {
      DeleverageTightness.StatusChecksAreTight(funded, updated, prices, config);
    }
  }

  /** The last three checks of a deleverage. */
  lemma {:induction false} DeleverageChecksExact(s: State, cfg: BatchConfig, tx: Transaction, u0: DictUpdate,
                                                 deleverager: Position, p: Position)
    requires Ready(s, cfg) && tx.Deleverage? && StoredPosition(u0.funded) && StoredPosition(u0.updated)
    requires ValidAssets(deleverager.assets)
    requires Holding(deleverager.assets, tx.syntheticAssetId) == Holding(p.assets, tx.syntheticAssetId)
    ensures ValidateDeleverage(s, cfg, tx, u0, deleverager).Done? <==>
            && Holds(p, tx.syntheticAssetId, tx.amountSynthetic, !tx.deleveragerIsBuyingSynthetic)
            && DeleverageTightness.Tight(u0.funded, u0.updated, s.prices, cfg.general)
  {
    hide GetStatus, GetAssetBalance, DeleverageIsTight, IsLe, IsNnLe, DeleverageTightness.Tight, Holds;
    HoldsExact(p, deleverager, tx.syntheticAssetId, tx.amountSynthetic, !tx.deleveragerIsBuyingSynthetic);
    TightExact(u0.funded, u0.updated, s.prices, cfg.general);
  }

  /** What the two updates of a deleverage leave for its checks. */
  lemma {:induction false} DeleverageStates(s: State, cfg: BatchConfig, tx: Transaction, u0: DictUpdate, u1: DictUpdate)
    requires Ready(s, cfg) && tx.Deleverage? && Amount(tx.amountSynthetic) && Amount(tx.amountCollateral)
    requires tx.deleveragerPositionId != tx.deleveragablePositionId
    requires var c, d := DeleverageTightness.CollateralDelta(tx), DeleverageTightness.SyntheticDelta(tx);
      && UpdateInDict(s, cfg, tx.deleveragablePositionId, 0, c, tx.syntheticAssetId, d) == Done(u0)
      && UpdateInDict(s.(positions := u0.positions), cfg, tx.deleveragerPositionId, 0, -c, tx.syntheticAssetId, -d)
         == Done(u1)
    ensures StoredPosition(u0.funded) && StoredPosition(u0.updated) && ValidAssets(u1.funded.assets)
    ensures DeleverageTightness.DeleveragableUpdate(s, cfg, tx, DeleverageTightness.CollateralDelta(tx)) ==
            Done(Update(u0.updated, u0.funded, u0.code))
    ensures IsPosition(s, tx.deleveragerPositionId)
    ensures Holding(u1.funded.assets, tx.syntheticAssetId) ==
            Holding(s.positions[tx.deleveragerPositionId].assets, tx.syntheticAssetId)
  {
    hide UpdatePosition.Apply, ApplyFunding, Equity, LegalTransition;
    var c, d := DeleverageTightness.CollateralDelta(tx), DeleverageTightness.SyntheticDelta(tx);
    var p := s.positions[tx.deleveragablePositionId];
    ApplyExact(p, 0, c, tx.syntheticAssetId, d, s.funding, s.prices, cfg.general);
    FundingRoundsDown(p, s.funding);
    var q := s.positions[tx.deleveragerPositionId];
    assert u0.positions[tx.deleveragerPositionId] == q;
    ApplyExact(q, 0, -c, tx.syntheticAssetId, -d, s.funding, s.prices, cfg.general);
    FundingRoundsDown(q, s.funding);
  }

  /** A deleverage is accepted if and only if both updates are acceptable, the deleverager holds what it
      gives, and the trade is tight for an insolvent position. */
  lemma {:induction false} DeleverageExactly(s: State, cfg: BatchConfig, tx: Transaction)
    requires Ready(s, cfg) && tx.Deleverage?
    ensures ExecuteDeleverage(s, cfg, tx).Done? <==> DeleverageAllowed(s, cfg, tx)
  {
    hide UpdateInDict, CanUpdate, IsAmount, ValidateDeleverage, Ready, Holds, DeleverageTightness.Tight,
      DeleverageTightness.DeleveragableUpdate;
    AmountExact(tx.amountSynthetic);
    AmountExact(tx.amountCollateral);
    if Amount(tx.amountSynthetic) && Amount(tx.amountCollateral)
        && tx.deleveragerPositionId != tx.deleveragablePositionId {
      var c, d := DeleverageTightness.CollateralDelta(tx), DeleverageTightness.SyntheticDelta(tx);
      UpdateExactly(s, cfg, tx.deleveragablePositionId, 0, c, tx.syntheticAssetId, d);
      var u0 := UpdateInDict(s, cfg, tx.deleveragablePositionId, 0, c, tx.syntheticAssetId, d);
      if u0.Done? && u0.value.code == Success {
        var s1 := s.(positions := u0.value.positions);
        UpdatedIsReady(s, cfg, tx.deleveragablePositionId, 0, c, tx.syntheticAssetId, d);
        UpdateExactly(s1, cfg, tx.deleveragerPositionId, 0, -c, tx.syntheticAssetId, -d);
        UpdateIsLocal(s, s1, cfg, tx.deleveragerPositionId, 0, -c, tx.syntheticAssetId, -d);
        var u1 := UpdateInDict(s1, cfg, tx.deleveragerPositionId, 0, -c, tx.syntheticAssetId, -d);
        if u1.Done? && u1.value.code == Success {
          DeleverageStates(s, cfg, tx, u0.value, u1.value);
          DeleverageChecksExact(s, cfg, tx, u0.value, u1.value.funded, s.positions[tx.deleveragerPositionId]);
        }
      }
    }
  }

  lemma {:induction false} BookedHolding(ps: seq<Position>, qs: seq<Position>, funding: FundingInfo, id: int,
                                         es: seq<BatchJournal.Entry>, i: int)
    requires BatchJournal.Booked(ps, qs, funding, id, es) && 0 <= i < |ps| && BatchJournal.Touches(es, i)
    ensures |qs| == |ps|
    ensures Holding(qs[i].assets, id) == Holding(ps[i].assets, id) + BatchJournal.SyntheticOf(es, i)
  {
    hide ValidPosition, Stamped, ApplyFunding, Holding;
  }

  /** The entry of the deleverager. */
  lemma {:induction false} DeleveragerEntry(cfg: BatchConfig, tx: Transaction)
    requires tx.Deleverage? && tx.deleveragerPositionId != tx.deleveragablePositionId
    ensures var es := BatchJournal.Entries(cfg, tx);
      && BatchJournal.Touches(es, tx.deleveragerPositionId)
      && BatchJournal.SyntheticOf(es, tx.deleveragerPositionId) ==
         if tx.deleveragerIsBuyingSynthetic then tx.amountSynthetic else -tx.amountSynthetic
  {
    var es := BatchJournal.Entries(cfg, tx);
    var rest := es[1..];
    assert rest == [es[1]] && rest[1..] == [];
    assert BatchJournal.SyntheticOf(rest, tx.deleveragerPositionId) == es[1].synthetic;
  }

  /** What an accepted deleverage takes from the deleverager: at most what it holds, on the right side, so
      that its holding moves toward zero. */
  lemma {:induction false} DeleveragerGivesWhatItHolds(s: State, cfg: BatchConfig, tx: Transaction)
    requires Ready(s, cfg) && tx.Deleverage? && ExecuteDeleverage(s, cfg, tx).Done?
    ensures IsPosition(s, tx.deleveragerPositionId) && tx.deleveragerPositionId != tx.deleveragablePositionId
    ensures |ExecuteDeleverage(s, cfg, tx).value.positions| == |s.positions|
    ensures var i, id := tx.deleveragerPositionId, tx.syntheticAssetId;
      var before := Holding(s.positions[i].assets, id);
      var after := Holding(ExecuteDeleverage(s, cfg, tx).value.positions[i].assets, id);
      && 0 <= tx.amountSynthetic <= Abs(before)
      && after == before + (if tx.deleveragerIsBuyingSynthetic then tx.amountSynthetic else -tx.amountSynthetic)
      && TowardZero(after, before)
  {
    hide ExecuteDeleverage, Ready, BatchJournal.Booked, BatchJournal.Entries, Holding, Acceptable,
      DeleverageTightness.Tight, DeleverageTightness.DeleveragableUpdate;
    DeleverageExactly(s, cfg, tx);
    BatchJournal.DeleverageBooked(s, cfg, tx);
    DeleveragerEntry(cfg, tx);
    BookedHolding(s.positions, ExecuteDeleverage(s, cfg, tx).value.positions, s.funding, tx.syntheticAssetId,
                  BatchJournal.Entries(cfg, tx), tx.deleveragerPositionId);
  }

  // ---- Forced requests have one answer ----

  /** The position can be funded and evaluated. */
  predicate Sound(s: State, cfg: BatchConfig, id: int) {
    && IsPosition(s, id)
    && ApplyFunding(s.positions[id], s.funding).Done?
    && AllEvaluable(s.positions[id].assets, s.prices, cfg.general)
  }

  /** The same request under the given flag. */
  function MarkedWithdrawal(tx: Transaction, isValid: bool): Transaction
    requires tx.ForcedWithdrawal?
  {
    ForcedWithdrawal(tx.publicKey, tx.positionId, tx.amount, isValid)
  }

  function MarkedTrade(tx: Transaction, isValid: bool): Transaction
    requires tx.ForcedTrade?
  {
    ForcedTrade(tx.publicKeyA, tx.publicKeyB, tx.positionIdA, tx.positionIdB, tx.syntheticAssetId, tx.amountCollateral,
                tx.amountSynthetic, tx.isPartyABuyingSynthetic, isValid)
  }

  /** A forced withdrawal of an amount in range is accepted under exactly one of the two flags: marked valid
      if it is acceptable, marked invalid if it is not. */
  lemma {:induction false} ForcedWithdrawalOneAnswer(s: State, cfg: BatchConfig, tx: Transaction)
    requires Ready(s, cfg) && tx.ForcedWithdrawal? && Amount(tx.amount) && Sound(s, cfg, tx.positionId)
    ensures var acceptable := CanMoveCollateral(s, cfg, tx.positionId, tx.publicKey, -tx.amount);
      && (ExecuteForcedWithdrawal(s, cfg, MarkedWithdrawal(tx, true)).Done? <==> acceptable)
      && (ExecuteForcedWithdrawal(s, cfg, MarkedWithdrawal(tx, false)).Done? <==> !acceptable)
  {
    hide ExecuteForcedWithdrawal, CanMoveCollateral, Answered, AllEvaluable, ApplyFunding;
    ForcedWithdrawalExactly(s, cfg, MarkedWithdrawal(tx, true));
    ForcedWithdrawalExactly(s, cfg, MarkedWithdrawal(tx, false));
    AnsweredExactly(s.positions[tx.positionId], tx.publicKey, -tx.amount, NO_SYNTHETIC_DELTA_ASSET_ID, 0, s.funding,
                    s.prices, cfg.general);
  }

  /** The request passes every check but leaves a balance of -2^63, which the risk function refuses. */
  predicate Stuck(s: State, r: Request, assetId: int)
    requires IsPosition(s, r.id) && ApplyFunding(s.positions[r.id], s.funding).Done?
  {
    var p := s.positions[r.id];
    && r.synthetic != 0 && Holding(p.assets, assetId) + r.synthetic == BALANCE_LOWER_BOUND
    && Admissible(p, ApplyFunding(p, s.funding).value, r.key, r.collateral, assetId, r.synthetic, s.funding, s.prices)
  }

  /** A forced trade of amounts in range, in a configured asset, is accepted marked valid if and only if both
      sides are acceptable, and marked invalid if and only if one is not and neither is stuck. So it has
      exactly one answer, but none at all when a side is stuck. */
  lemma {:induction false} ForcedTradeOneAnswer(s: State, cfg: BatchConfig, tx: Transaction)
    requires Ready(s, cfg) && tx.ForcedTrade? && Amount(tx.amountCollateral) && Amount(tx.amountSynthetic)
    requires tx.positionIdA != tx.positionIdB && Sound(s, cfg, tx.positionIdA) && Sound(s, cfg, tx.positionIdB)
    requires if tx.syntheticAssetId == NO_SYNTHETIC_DELTA_ASSET_ID then tx.amountSynthetic == 0
             else FindInfo(cfg.general.infos, tx.syntheticAssetId).Some?
    ensures var a, b := RequestOf(tx, true), RequestOf(tx, false);
      var acceptable := CanGrant(s, cfg, a, tx.syntheticAssetId) && CanGrant(s, cfg, b, tx.syntheticAssetId);
      var stuck := Stuck(s, a, tx.syntheticAssetId) || Stuck(s, b, tx.syntheticAssetId);
      && (ExecuteForcedTrade(s, cfg, MarkedTrade(tx, true)).Done? <==> acceptable && !stuck)
      && (ExecuteForcedTrade(s, cfg, MarkedTrade(tx, false)).Done? <==> !acceptable && !stuck)
  {
    hide ExecuteForcedTrade, CanUpdate, Answered, AllEvaluable, ApplyFunding, Admissible;
    ForcedTradeExactly(s, cfg, MarkedTrade(tx, true));
    ForcedTradeExactly(s, cfg, MarkedTrade(tx, false));
    var a, b := RequestOf(tx, true), RequestOf(tx, false);
    assert RequestOf(MarkedTrade(tx, true), true) == a && RequestOf(MarkedTrade(tx, true), false) == b;
    assert RequestOf(MarkedTrade(tx, false), true) == a && RequestOf(MarkedTrade(tx, false), false) == b;
    AnsweredExactly(s.positions[a.id], a.key, a.collateral, tx.syntheticAssetId, a.synthetic, s.funding, s.prices,
                    cfg.general);
    AnsweredExactly(s.positions[b.id], b.key, b.collateral, tx.syntheticAssetId, b.synthetic, s.funding, s.prices,
                    cfg.general);
  }

  // ---- Times ----

  /** No time wraps: the range in which the freshness check is decided over the integers. Timestamps of
      ticks are field elements, so every run stays in it. */
  predicate Timely(s: State, cfg: BatchConfig) {
    && 0 <= s.funding.timestamp <= s.systemTime <= HALF
    && 0 <= cfg.general.fundingValidityPeriod <= HALF
  }

  lemma {:induction false} FreshExact(s: State, cfg: BatchConfig)
    requires RC_BOUND - P <= s.funding.timestamp + cfg.general.fundingValidityPeriod - s.systemTime < P
    ensures FundingIsFresh(s, cfg) <==> Fresh(s, cfg)
  {
  }

  lemma {:induction false} PriceTickExactly(s: State, cfg: BatchConfig, tx: Transaction)
    requires Ready(s, cfg) && tx.OraclePricesTick?
    ensures ExecuteOraclePricesTick(s, cfg, tx).Done? <==>
            InOrder(s, tx.timestamp) && Ticks.TickPricesOk(tx.tickPrices, -1, cfg)
  {
    Ticks.MergeAcceptedExactly(s.prices, tx.tickPrices, -1, cfg);
    hide MergePrices, Ticks.TickPricesOk;
  }

  /** Some path of the prover makes a funding tick acceptable if and only if its indices are sorted and in
      range, cover all previous ones, and moved within the rate. */
  lemma {:induction false} FundingTickPossible(s: State, cfg: BatchConfig, indices: seq<TickIndex>, timestamp: felt)
    requires Ready(s, cfg)
    ensures (exists tape :: ExecuteFundingTick(s, cfg, FundingTick(indices, timestamp, tape)).Done?) <==>
            && InOrder(s, timestamp)
            && Ticks.NewIndicesOk(indices, -1)
            && Ticks.AllCovered(s.funding.indices, indices, s.prices, cfg.general.maxFundingRate,
                                timestamp - s.funding.timestamp)
  {
    hide ValidateTick, Ticks.NewIndicesOk, Ticks.AllCovered;
    var rate, dt := cfg.general.maxFundingRate, timestamp - s.funding.timestamp;
    if tape :| ExecuteFundingTick(s, cfg, FundingTick(indices, timestamp, tape)).Done? {
      Ticks.TickExact(s.funding.indices, indices, s.prices, -1, rate, dt, tape);
    }
    if InOrder(s, timestamp) && Ticks.NewIndicesOk(indices, -1)
        && Ticks.AllCovered(s.funding.indices, indices, s.prices, rate, dt) {
      Ticks.HonestTapeAccepted(s.funding.indices, indices, s.prices, -1, rate, dt);
      var tape := Ticks.HonestTape(s.funding.indices, indices, s.prices);
      assert ExecuteFundingTick(s, cfg, FundingTick(indices, timestamp, tape)).Done?;
    }
  }

  // ---- Any transaction, any batch ----

  /** A transaction is accepted if and only if it is allowed. */
  lemma {:induction false} TransactionExactly(s: State, cfg: BatchConfig, tx: Transaction)
    requires Ready(s, cfg) && Timely(s, cfg)
    ensures ExecuteTransaction(s, cfg, tx).Done? <==> Allowed(s, cfg, tx)
  {
    hide ExecuteTransfer, ExecuteTrade, ExecuteForcedTrade, ExecuteLiquidate, ExecuteDeleverage, ExecuteDeposit,
      ExecuteWithdrawal, ExecuteForcedWithdrawal, ExecuteOraclePricesTick, FundingIsFresh, Fresh, Ready,
      DepositAllowed, WithdrawalAllowed, ForcedWithdrawalAllowed, TransferAllowed, TradeAllowed, ForcedTradeAllowed,
      LiquidateAllowed, DeleverageAllowed, Ticks.TickPricesOk, ValidateTick;
    FreshExact(s, cfg);
    match tx
    case Deposit(_, _, _) => DepositExactly(s, cfg, tx);
    case Withdrawal(_, _, _, _) => WithdrawalExactly(s, cfg, tx);
    case ForcedWithdrawal(_, _, _, _) => ForcedWithdrawalExactly(s, cfg, tx);
    case PlainTransfer(t) => TransferExactly(s, cfg, t, 0);
    case ConditionalTransfer(t, condition) => TransferExactly(s, cfg, t, condition);
    case Trade(_, _, _, _, _, _) => TradeExactly(s, cfg, tx);
    case ForcedTrade(_, _, _, _, _, _, _, _, _) => ForcedTradeExactly(s, cfg, tx);
    case Liquidate(_, _, _, _, _) => LiquidateExactly(s, cfg, tx);
    case Deleverage(_, _, _, _, _, _) => DeleverageExactly(s, cfg, tx);
    case FundingTick(_, _, _) =>
    case OraclePricesTick(_, _) => PriceTickExactly(s, cfg, tx);
  }

  lemma {:induction false} StepIsTimely(s: State, cfg: BatchConfig, tx: Transaction)
    requires Ready(s, cfg) && Timely(s, cfg) && ExecuteTransaction(s, cfg, tx).Done?
    ensures Ready(ExecuteTransaction(s, cfg, tx).value, cfg) && Timely(ExecuteTransaction(s, cfg, tx).value, cfg)
  {
    hide ExecuteTransaction, BatchRuns.Accounts;
    BatchRuns.StepAccounts(s, cfg, tx);
    BatchRuns.AccountsValid(s, ExecuteTransaction(s, cfg, tx).value, BatchRuns.Applications(tx));
    StepTimes(s, cfg, tx);
  }

  /** Ticks set the times, and nothing else does. */
  lemma {:induction false} StepTimes(s: State, cfg: BatchConfig, tx: Transaction)
    requires Ready(s, cfg) && ExecuteTransaction(s, cfg, tx).Done?
    ensures var t := ExecuteTransaction(s, cfg, tx).value;
      && t.systemTime == (if tx.FundingTick? || tx.OraclePricesTick? then tx.timestamp else s.systemTime)
      && t.funding.timestamp == (if tx.FundingTick? then tx.timestamp else s.funding.timestamp)
      && s.systemTime <= t.systemTime
  {
    if IsTick(tx) {
      hide ValidateTick, MergePrices;
    } else {
      hide ExecuteTransaction, BatchRuns.Accounts, BatchRuns.Restamps;
      if tx.Deposit? || tx.Withdrawal? || tx.ForcedWithdrawal? {
        BatchRuns.StepAccountsCollateral(s, cfg, tx);
      } else {
        BatchRuns.StepAccountsInternal(s, cfg, tx);
      }
    }
  }

  /** Every transaction is allowed in the state that those before it leave. */
  ghost predicate AllAllowed(s: State, cfg: BatchConfig, txs: seq<Transaction>)
    decreases |txs|
  {
    txs != [] ==>
      && Allowed(s, cfg, txs[0])
      && ExecuteTransaction(s, cfg, txs[0]).Done?
      && AllAllowed(ExecuteTransaction(s, cfg, txs[0]).value, cfg, txs[1..])
  }

  /** A batch is accepted if and only if every transaction is allowed in its turn. */
  lemma {:induction false} BatchExactly(s: State, cfg: BatchConfig, txs: seq<Transaction>)
    requires Ready(s, cfg) && Timely(s, cfg)
    ensures ExecuteTransactions(s, cfg, txs).Done? <==> AllAllowed(s, cfg, txs)
    decreases |txs|
  {
    hide ExecuteTransaction, Allowed, Ready, Timely;
    if txs != [] {
      TransactionExactly(s, cfg, txs[0]);
      if ExecuteTransaction(s, cfg, txs[0]).Done? {
        StepIsTimely(s, cfg, txs[0]);
        BatchExactly(ExecuteTransaction(s, cfg, txs[0]).value, cfg, txs[1..]);
      }
    }
  }

  /** The state in which transaction k of an accepted batch runs. */
  lemma {:induction false} StateBefore(s: State, cfg: BatchConfig, txs: seq<Transaction>, k: nat)
    requires Ready(s, cfg) && Timely(s, cfg) && ExecuteTransactions(s, cfg, txs).Done? && k < |txs|
    ensures var at := ExecuteTransactions(s, cfg, txs[..k]);
      at.Done? && Ready(at.value, cfg) && Timely(at.value, cfg) && ExecuteTransaction(at.value, cfg, txs[k]).Done?
    decreases k
  {
    hide ExecuteTransaction, Ready, Timely;
    if k == 0 {
      assert txs[..0] == [];
    } else {
      var s1 := ExecuteTransaction(s, cfg, txs[0]).value;
      StepIsTimely(s, cfg, txs[0]);
      StateBefore(s1, cfg, txs[1..], k - 1);
      assert txs[1..][..k - 1] == txs[..k][1..] && txs[..k][0] == txs[0];
    }
  }

  /** In every accepted batch, whatever is no tick runs while the last funding tick is at most the
      validity period old. */
  lemma {:induction false} BatchIsFresh(s: State, cfg: BatchConfig, txs: seq<Transaction>, k: nat)
    requires Ready(s, cfg) && Timely(s, cfg) && ExecuteTransactions(s, cfg, txs).Done? && k < |txs|
    ensures var at := ExecuteTransactions(s, cfg, txs[..k]);
      && at.Done?
      && s.systemTime <= at.value.systemTime
      && (!IsTick(txs[k]) ==>
            at.value.systemTime <= at.value.funding.timestamp + cfg.general.fundingValidityPeriod)
  {
    hide ExecuteTransaction, ExecuteTransactions, Ready;
    StateBefore(s, cfg, txs, k);
    var at := ExecuteTransactions(s, cfg, txs[..k]).value;
    TransactionExactly(at, cfg, txs[k]);
    TimeRises(s, cfg, txs[..k]);
  }

  lemma {:induction false} TimeRises(s: State, cfg: BatchConfig, txs: seq<Transaction>)
    requires Ready(s, cfg) && Timely(s, cfg) && ExecuteTransactions(s, cfg, txs).Done?
    ensures s.systemTime <= ExecuteTransactions(s, cfg, txs).value.systemTime
    decreases |txs|
  {
    hide ExecuteTransaction, Ready, Timely;
    if txs != [] {
      StepTimes(s, cfg, txs[0]);
      StepIsTimely(s, cfg, txs[0]);
      TimeRises(ExecuteTransaction(s, cfg, txs[0]).value, cfg, txs[1..]);
    }
  }

  // ---- Expiration ----

  /** The signed orders of a transaction. */
  function SignedOrders(tx: Transaction): seq<OrderBase> {
    match tx
    case Withdrawal(base, _, _, _) => [base]
    case PlainTransfer(t) => [t.base]
    case ConditionalTransfer(t, _) => [t.base]
    case Trade(a, b, _, _, _, _) => [a.base, b.base]
    case Liquidate(o, _, _, _, _) => [o.base]
    case _ => []
  }

  /** The order is no older than the batch admits, and its nonce and expiration fit their 32 bits. */
  predicate Live(base: OrderBase, minExpiration: int) {
    minExpiration <= base.expirationTimestamp < EXPIRATION_TIMESTAMP_UPPER_BOUND && 0 <= base.nonce < NONCE_UPPER_BOUND
  }

  /** Every signed order of an accepted batch is live. */
  lemma {:induction false} BatchOrdersAreLive(s: State, cfg: BatchConfig, txs: seq<Transaction>, k: nat)
    requires Ready(s, cfg) && Timely(s, cfg) && ExecuteTransactions(s, cfg, txs).Done? && k < |txs|
    ensures forall i :: 0 <= i < |SignedOrders(txs[k])| ==> Live(SignedOrders(txs[k])[i], cfg.minExpiration)
  {
    hide ExecuteTransaction, ExecuteTransactions, Ready, Timely, CanUpdate, Fair, FairnessAssumptions,
      LiquidationAllowed;
    StateBefore(s, cfg, txs, k);
    TransactionExactly(ExecuteTransactions(s, cfg, txs[..k]).value, cfg, txs[k]);
  }
}
