/** The perpetual batch as the program runs it: dictionaries and outputs that are updated in place,
    one transaction after the other. Every method is tied to the step function of module Batch, so
    the theorems of module BatchRuns hold of the machine.

    A method returns false where a Cairo assert fails. Such an execution does not exist, and the
    fields it leaves behind mean nothing. */
module BatchMachine {
  import opened Felt
  import opened PerpetualTypes
  import opened Funding
  import opened Status
  import opened UpdatePosition
  import opened MessageHashes
  import opened Orders
  import opened Batch
  import opened BatchInvariants
  import opened BatchRuns

  class Machine {
    const cfg: BatchConfig
    var positions: seq<Position>
    var orders: OrderBook
    var funding: FundingInfo
    var prices: seq<OraclePrice>
    var systemTime: int
    var modifications: seq<Modification>
    var conditions: seq<int>
    var fundingTable: seq<FundingInfo>

    /** The carried state and the outputs as one value. */
    function Snapshot(): State
      reads this
    {
      State(positions, orders, funding, prices, systemTime, modifications, conditions, fundingTable)
    }

    constructor (s: State, config: BatchConfig)
      ensures Snapshot() == s && cfg == config
    {
      cfg := config;
      positions, orders, funding, prices := s.positions, s.orders, s.funding, s.prices;
      systemTime, modifications, conditions, fundingTable := s.systemTime, s.modifications, s.conditions,
          s.fundingTable;
    }

    /** update_position_in_dict: the entry is written also when the update reports a code. */
    method UpdatePositionInDict(id: int, requestKey: int, collateralDelta: int, assetId: int, syntheticDelta: int)
      returns (ok: bool, funded: Position, updated: Position, code: ErrorCode)
      modifies this`positions
      ensures var r := UpdateInDict(old(Snapshot()), cfg, id, requestKey, collateralDelta, assetId, syntheticDelta);
        && (ok <==> r.Done?)
        && (ok ==> r.value == DictUpdate(positions, funded, updated, code))
        && (!ok ==> positions == old(positions))
    {
      hide UpdatePosition.Apply;
      funded, updated, code := EMPTY_POSITION, EMPTY_POSITION, Success;
      if !(0 <= id < |positions|) { return false, funded, updated, code; }
      var initial := positions[id];
      var u := UpdatePosition.Apply(initial, requestKey, collateralDelta, assetId, syntheticDelta, funding, prices,
                                    cfg.general);
      if u.Abort? { return false, funded, updated, code; }
      positions := positions[id := u.value.updated];
      return true, u.value.funded, u.value.updated, u.value.code;
    }

    /** update_position_in_dict followed by assert_success. */
    method UpdateAndAssert(id: int, requestKey: int, collateralDelta: int, assetId: int,
                           syntheticDelta: int) returns (ok: bool)
      modifies this`positions
      ensures var r := UpdateOrAbort(old(Snapshot()), cfg, id, requestKey, collateralDelta, assetId, syntheticDelta);
        && (ok <==> r.Done?)
        && (ok ==> Snapshot() == r.value)
    {
      hide UpdateInDict;
      var done, _, _, code := UpdatePositionInDict(id, requestKey, collateralDelta, assetId, syntheticDelta);
      ok := done && code == Success;
    }

    /** update_order_fulfillment. */
    method FulfillOrder(messageHash: int, updateAmount: int, fullAmount: int) returns (ok: bool)
      modifies this`orders
      ensures var r := UpdateOrderFulfillment(old(orders), messageHash, updateAmount, fullAmount);
        && (ok <==> r.Done?)
        && orders == if ok then r.value else old(orders)
    {
      var orderId := ExtractOrderId(messageHash);
      var fulfilled := Fulfilled(orders, orderId);
      var remainingCapacity := fullAmount - fulfilled;
      if !IsNnLe(updateAmount, remainingCapacity) { return false; }
      if !IsLe(fullAmount, AMOUNT_UPPER_BOUND - 1) { return false; }
      orders := orders[orderId := fulfilled + updateAmount];
      return true;
    }

    /** validate_order_and_update_fulfillment. */
    method ValidateAndFulfillOrder(messageHash: int, base: OrderBase, updateAmount: int,
                                   fullAmount: int) returns (ok: bool)
      modifies this`orders
      ensures var r := ValidateOrderAndUpdateFulfillment(old(orders), messageHash, base, cfg.minExpiration,
                                                         updateAmount, fullAmount, cfg.verify);
        && (ok <==> r.Done?)
        && orders == if ok then r.value else old(orders)
    {
      hide UpdateOrderFulfillment;
      if !(0 <= messageHash < SIGNED_MESSAGE_BOUND) { return false; }
      if !cfg.verify(messageHash, base.publicKey, base.signatureR, base.signatureS) { return false; }
      if !IsInRange(base.expirationTimestamp, cfg.minExpiration, EXPIRATION_TIMESTAMP_UPPER_BOUND) { return false; }
      if !IsNnLe(base.nonce, NONCE_UPPER_BOUND - 1) { return false; }
      ok := FulfillOrder(messageHash, updateAmount, fullAmount);
    }

    /** execute_deposit. */
    method Deposit(tx: Transaction) returns (ok: bool)
      requires tx.Deposit?
      modifies this
      ensures var r := ExecuteDeposit(old(Snapshot()), cfg, tx);
        && (ok <==> r.Done?)
        && (ok ==> Snapshot() == r.value)
    {
      hide UpdateOrAbort, IsAmount;
      if !IsAmount(tx.amount) { return false; }
      ok := UpdateAndAssert(tx.positionId, tx.publicKey, tx.amount, NO_SYNTHETIC_DELTA_ASSET_ID, 0);
      modifications := modifications + [Modification(tx.publicKey, tx.positionId, tx.amount + AMOUNT_UPPER_BOUND)];
    }

    /** execute_withdrawal. */
    method Withdraw(tx: Transaction) returns (ok: bool)
      requires tx.Withdrawal?
      modifies this
      ensures var r := ExecuteWithdrawal(old(Snapshot()), cfg, tx);
        && (ok <==> r.Done?)
        && (ok ==> Snapshot() == r.value)
    {
      hide UpdateOrAbort, ValidateOrderAndUpdateFulfillment, WithdrawalHash;
      var fields := WithdrawalFields(tx.positionId, tx.ownerKey, tx.amount, tx.base.nonce, tx.base.expirationTimestamp);
      var hash := WithdrawalHash(cfg.pedersen, fields, tx.base.publicKey, cfg.general.collateralAssetId);
      ok := ValidateAndFulfillOrder(hash, tx.base, tx.amount, tx.amount);
      if !ok { return; }
      ok := UpdateAndAssert(tx.positionId, tx.base.publicKey, -tx.amount, NO_SYNTHETIC_DELTA_ASSET_ID, 0);
      modifications := modifications + [Modification(tx.ownerKey, tx.positionId, AMOUNT_UPPER_BOUND - tx.amount)];
    }

    /** execute_forced_withdrawal. */
    method ForcedWithdraw(tx: Transaction) returns (ok: bool)
      requires tx.ForcedWithdrawal?
      modifies this
      ensures var r := ExecuteForcedWithdrawal(old(Snapshot()), cfg, tx);
        && (ok <==> r.Done?)
        && (ok ==> Snapshot() == r.value)
    {
      hide UpdateInDict, IsAmount;
      if !IsAmount(tx.amount) { return false; }
      var done, _, _, code := UpdatePositionInDict(tx.positionId, tx.publicKey, -tx.amount,
                                                   NO_SYNTHETIC_DELTA_ASSET_ID, 0);
      ok := done && (tx.isValid <==> code == Success);
      if tx.isValid {
        modifications := modifications + [Modification(tx.publicKey, tx.positionId, AMOUNT_UPPER_BOUND - tx.amount)];
      }
    }

    /** execute_transfer, and execute_conditional_transfer up to its output. */
    method Transfer(t: Batch.Transfer, condition: int) returns (ok: bool)
      modifies this
      ensures var r := ExecuteTransfer(old(Snapshot()), cfg, t, condition);
        && (ok <==> r.Done?)
        && (ok ==> Snapshot() == r.value)
    {
      hide UpdateOrAbort, ValidateOrderAndUpdateFulfillment, TransferHash, IsAmount;
      if t.senderPositionId == t.receiverPositionId { return false; }
      if !IsAmount(t.amount) { return false; }
      if t.assetId != cfg.general.collateralAssetId { return false; }
      var fields := TransferFields(t.assetId, 0, t.receiverPublicKey, t.senderPositionId, t.receiverPositionId,
                                   t.senderPositionId, t.amount, 0, t.base.nonce, t.base.expirationTimestamp);
      var hash := TransferHash(cfg.pedersen, fields, condition);
      ok := ValidateAndFulfillOrder(hash, t.base, t.amount, t.amount);
      if !ok { return; }
      ok := UpdateAndAssert(t.senderPositionId, t.base.publicKey, -t.amount, NO_SYNTHETIC_DELTA_ASSET_ID, 0);
      if !ok { return; }
      ok := UpdateAndAssert(t.receiverPositionId, t.receiverPublicKey, t.amount, NO_SYNTHETIC_DELTA_ASSET_ID, 0);
    }

    /** execute_conditional_transfer. */
    method TransferUnderCondition(tx: Transaction) returns (ok: bool)
      requires tx.ConditionalTransfer?
      modifies this
      ensures var r := ExecuteConditionalTransfer(old(Snapshot()), cfg, tx);
        && (ok <==> r.Done?)
        && (ok ==> Snapshot() == r.value)
    {
      hide ExecuteTransfer;
      ok := Transfer(tx.transfer, tx.condition);
      conditions := conditions + [tx.condition];
    }

    /** execute_limit_order: the fee position is credited before the party is charged. */
    method FillLimitOrder(o: LimitOrder, collateral: int, synthetic: int, fee: int) returns (ok: bool)
      modifies this
      ensures var r := ExecuteLimitOrder(old(Snapshot()), cfg, o, collateral, synthetic, fee);
        && (ok <==> r.Done?)
        && (ok ==> Snapshot() == r.value)
    {
      hide UpdateOrAbort, ValidateOrderAndUpdateFulfillment, LimitOrderHash, IsAmount, IsInRange, IsLe,
        ValidateFairness;
      if o.positionId == cfg.general.feePositionId { return false; }
      if o.assetIdCollateral != cfg.general.collateralAssetId { return false; }
      if !IsInRange(o.amountCollateral, 1, AMOUNT_UPPER_BOUND) { return false; }
      if !IsAmount(o.amountFee) { return false; }
      if !IsLe(1, synthetic) { return false; }
      if ValidateFairness(o, collateral, synthetic, fee).Abort? { return false; }
      var hash := LimitOrderHash(cfg.pedersen, ExchangeFields(o));
      ok := ValidateAndFulfillOrder(hash, o.base, synthetic, o.amountSynthetic);
      if !ok { return; }
      ok := UpdateAndAssert(cfg.general.feePositionId, cfg.general.feePublicKey, fee, NO_SYNTHETIC_DELTA_ASSET_ID, 0);
      if !ok { return; }
      var collateralDelta := if o.isBuyingSynthetic then -collateral else collateral;
      var syntheticDelta := if o.isBuyingSynthetic then synthetic else -synthetic;
      ok := UpdateAndAssert(o.positionId, o.base.publicKey, collateralDelta - fee, o.assetIdSynthetic, syntheticDelta);
    }

    /** execute_trade: party A buys, party B sells. */
    method Trade(tx: Transaction) returns (ok: bool)
      requires tx.Trade?
      modifies this
      ensures var r := ExecuteTrade(old(Snapshot()), cfg, tx);
        && (ok <==> r.Done?)
        && (ok ==> Snapshot() == r.value)
    {
      hide ExecuteLimitOrder, IsAmount;
      if !(IsAmount(tx.actualCollateral) && IsAmount(tx.actualAFee) && IsAmount(tx.actualBFee)) { return false; }
      if !tx.partyA.isBuyingSynthetic || tx.partyB.isBuyingSynthetic { return false; }
      ok := FillLimitOrder(tx.partyA, tx.actualCollateral, tx.actualSynthetic, tx.actualAFee);
      if !ok { return; }
      if tx.partyA.assetIdSynthetic != tx.partyB.assetIdSynthetic { return false; }
      if tx.partyA.positionId == tx.partyB.positionId { return false; }
      ok := FillLimitOrder(tx.partyB, tx.actualCollateral, tx.actualSynthetic, tx.actualBFee);
    }

    /** execute_forced_trade. */
    method ForcedTrade(tx: Transaction) returns (ok: bool)
      requires tx.ForcedTrade?
      modifies this
      ensures var r := ExecuteForcedTrade(old(Snapshot()), cfg, tx);
        && (ok <==> r.Done?)
        && (ok ==> Snapshot() == r.value)
    {
      hide TryToTrade, IsAmount;
      if !(IsAmount(tx.amountCollateral) && IsAmount(tx.amountSynthetic)) { return false; }
      if tx.positionIdA == tx.positionIdB { return false; }
      if !(0 <= tx.positionIdA < |positions| && 0 <= tx.positionIdB < |positions|) { return false; }
      var a, b := positions[tx.positionIdA], positions[tx.positionIdB];
      var r;
      if tx.isPartyABuyingSynthetic {
        r := TryToTrade(Snapshot(), cfg, a, b, tx.publicKeyA, tx.publicKeyB, tx.syntheticAssetId, tx.amountCollateral,
                        tx.amountSynthetic);
      } else {
        r := TryToTrade(Snapshot(), cfg, b, a, tx.publicKeyB, tx.publicKeyA, tx.syntheticAssetId, tx.amountCollateral,
                        tx.amountSynthetic);
      }
      if r.Abort? { return false; }
      if tx.isValid != (r.value.code == Success) { return false; }
      positions := positions[tx.positionIdA := if tx.isPartyABuyingSynthetic then r.value.buyer else r.value.seller];
      positions := positions[tx.positionIdB := if tx.isPartyABuyingSynthetic then r.value.seller else r.value.buyer];
      return true;
    }

    /** execute_liquidate: the liquidated position first, then the liquidator's order. */
    method Liquidate(tx: Transaction) returns (ok: bool)
      requires tx.Liquidate?
      modifies this
      ensures var r := ExecuteLiquidate(old(Snapshot()), cfg, tx);
        && (ok <==> r.Done?)
        && (ok ==> Snapshot() == r.value)
    {
      hide LiquidatePosition, ExecuteLimitOrder, IsAmount;
      if !(IsAmount(tx.actualCollateral) && IsAmount(tx.actualLiquidatorFee)) { return false; }
      if tx.liquidatorOrder.positionId == tx.liquidatedPositionId { return false; }
      ok := ReduceLiquidated(tx);
      if !ok { return; }
      ok := FillLimitOrder(tx.liquidatorOrder, tx.actualCollateral, tx.actualSynthetic, tx.actualLiquidatorFee);
    }

    /** The update of the liquidated position, after the check that it is under-leveraged and holds
        what it gives. */
    method ReduceLiquidated(tx: Transaction) returns (ok: bool)
      requires tx.Liquidate?
      modifies this`positions
      ensures var r := LiquidatePosition(old(Snapshot()), cfg, tx);
        && (ok <==> r.Done?)
        && (ok ==> Snapshot() == r.value)
    {
      hide UpdatePosition.Apply, GetStatus, ApplyFunding, GetAssetBalance, IsNnLe, Is250Bit;
      var order := tx.liquidatorOrder;
      var collateralDelta := if order.isBuyingSynthetic then tx.actualCollateral else -tx.actualCollateral;
      var syntheticDelta := if order.isBuyingSynthetic then -tx.actualSynthetic else tx.actualSynthetic;
      if !(0 <= tx.liquidatedPositionId < |positions|) { return false; }
      var funded := ApplyFunding(positions[tx.liquidatedPositionId], funding);
      if funded.Abort? { return false; }
      var status := GetStatus(funded.value, prices, cfg.general);
      if status.Abort? || status.value.code != Success { return false; }
      if !Is250Bit(status.value.tr - (status.value.tv * FXP_32_ONE + 1)) { return false; }
      var balance := GetAssetBalance(funded.value, order.assetIdSynthetic);
      if order.isBuyingSynthetic {
        if !IsNnLe(-syntheticDelta, balance) { return false; }
      } else {
        if !IsNnLe(syntheticDelta, -balance) { return false; }
      }
      var u := UpdatePosition.Apply(funded.value, funded.value.publicKey, collateralDelta, order.assetIdSynthetic,
                                    syntheticDelta, funding, prices, cfg.general);
      if u.Abort? || u.value.code != Success { return false; }
      positions := positions[tx.liquidatedPositionId := u.value.updated];
      return true;
    }

    /** execute_deleverage: both positions are updated before the checks are made. */
    method Deleverage(tx: Transaction) returns (ok: bool)
      requires tx.Deleverage?
      modifies this
      ensures var r := ExecuteDeleverage(old(Snapshot()), cfg, tx);
        && (ok <==> r.Done?)
        && (ok ==> Snapshot() == r.value)
    {
      hide UpdateInDict, IsAmount, GetStatus, GetAssetBalance, IsNnLe, IsLe, DeleverageIsTight;
      if !IsAmount(tx.amountSynthetic) || !IsAmount(tx.amountCollateral) { return false; }
      if tx.deleveragerPositionId == tx.deleveragablePositionId { return false; }
      var synthetic, collateral;
      if tx.deleveragerIsBuyingSynthetic {
        synthetic, collateral := tx.amountSynthetic, -tx.amountCollateral;
      } else {
        synthetic, collateral := -tx.amountSynthetic, tx.amountCollateral;
      }
      var done, funded, updated,
          code := UpdatePositionInDict(tx.deleveragablePositionId, 0, -collateral, tx.syntheticAssetId, -synthetic);
      if !done || code != Success { return false; }
      var done1, deleverager, _,
          code1 := UpdatePositionInDict(tx.deleveragerPositionId, 0, collateral, tx.syntheticAssetId, synthetic);
      if !done1 || code1 != Success { return false; }
      var balance := GetAssetBalance(deleverager, tx.syntheticAssetId);
      if !IsNnLe(tx.amountSynthetic, if tx.deleveragerIsBuyingSynthetic then -balance else balance) { return false; }
      var status0 := GetStatus(funded, prices, cfg.general);
      if status0.Abort? || status0.value.code != Success { return false; }
      if !IsLe(status0.value.tv, -1) { return false; }
      var status1 := GetStatus(updated, prices, cfg.general);
      if status1.Abort? || status1.value.code != Success { return false; }
      ok := DeleverageIsTight(status0.value.tv, status0.value.tr, status1.value.tv, status1.value.tr);
    }

    /** execute_funding_tick. */
    method TickFunding(tx: Transaction) returns (ok: bool)
      requires tx.FundingTick?
      modifies this
      ensures var r := ExecuteFundingTick(old(Snapshot()), cfg, tx);
        && (ok <==> r.Done?)
        && (ok ==> Snapshot() == r.value)
    {
      hide ValidateTick, ToIndices;
      if !(0 <= tx.timestamp - systemTime < RC_BOUND) { return false; }
      if ValidateTick(funding.indices, tx.indices, prices, -1, cfg.general.maxFundingRate,
                      tx.timestamp - funding.timestamp, tx.tape).Abort? { return false; }
      funding := FundingInfo(ToIndices(tx.indices), tx.timestamp);
      systemTime := tx.timestamp;
      fundingTable := fundingTable + [funding];
      return true;
    }

    /** execute_oracle_prices_tick. */
    method TickPrices(tx: Transaction) returns (ok: bool)
      requires tx.OraclePricesTick?
      modifies this
      ensures var r := ExecuteOraclePricesTick(old(Snapshot()), cfg, tx);
        && (ok <==> r.Done?)
        && (ok ==> Snapshot() == r.value)
    {
      hide MergePrices;
      if !(0 <= tx.timestamp - systemTime < RC_BOUND) { return false; }
      var merged := MergePrices(prices, tx.tickPrices, -1, cfg);
      if merged.Abort? { return false; }
      prices := merged.value;
      systemTime := tx.timestamp;
      return true;
    }

    /** execute_transaction. */
    method Execute(tx: Transaction) returns (ok: bool)
      modifies this
      ensures var r := ExecuteTransaction(old(Snapshot()), cfg, tx);
        && (ok <==> r.Done?)
        && (ok ==> Snapshot() == r.value)
    {
      hide ExecuteOraclePricesTick, ExecuteFundingTick, ExecuteTrade, ExecuteDeposit, ExecuteTransfer,
        ExecuteConditionalTransfer, ExecuteLiquidate, ExecuteDeleverage, ExecuteWithdrawal, ExecuteForcedWithdrawal,
        ExecuteForcedTrade, FundingIsFresh;
      if tx.OraclePricesTick? { ok := TickPrices(tx); return; }
      if tx.FundingTick? { ok := TickFunding(tx); return; }
      if !FundingIsFresh(Snapshot(), cfg) { return false; }
      match tx {
        case Trade(_, _, _, _, _, _) => ok := Trade(tx);
        case Deposit(_, _, _) => ok := Deposit(tx);
        case PlainTransfer(transfer) => ok := Transfer(transfer, 0);
        case ConditionalTransfer(_, _) => ok := TransferUnderCondition(tx);
        case Liquidate(_, _, _, _, _) => ok := Liquidate(tx);
        case Deleverage(_, _, _, _, _, _) => ok := Deleverage(tx);
        case Withdrawal(_, _, _, _) => ok := Withdraw(tx);
        case ForcedWithdrawal(_, _, _, _) => ok := ForcedWithdraw(tx);
        case ForcedTrade(_, _, _, _, _, _, _, _, _) => ok := ForcedTrade(tx);
      }
    }

    /** execute_batch_transactions: one transaction, then the rest. The accounts of the batch hold
        of the machine's state. */
    method Run(txs: seq<Transaction>) returns (ok: bool)
      modifies this
      ensures var r := ExecuteTransactions(old(Snapshot()), cfg, txs);
        && (ok <==> r.Done?)
        && (ok ==> Snapshot() == r.value)
      ensures ok && Ready(old(Snapshot()), cfg) ==> Accounts(old(Snapshot()), Snapshot(), AllApplications(txs))
      decreases |txs|
    {
      hide ExecuteTransaction, Ready, Accounts;
      ghost var start := Snapshot();
      if txs == [] {
        ok := true;
      } else {
        ok := Execute(txs[0]);
        if ok { ok := Run(txs[1..]); }
      }
      if ok && Ready(start, cfg) { RunAccounts(start, cfg, txs); }
    }
  }
}
