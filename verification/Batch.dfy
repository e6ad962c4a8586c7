/** The perpetual batch machine (execute_batch.cairo and transactions/): every transaction as a
    step on the carried state. A transaction whose asserts fail has no step. */
module Batch {
  import opened Felt
  import opened Options
  import opened PerpetualTypes
  import opened Funding
  import opened Status
  import opened UpdatePosition
  import opened MessageHashes
  import opened Orders

  datatype Modification = Modification(ownerKey: int, positionId: int, biasedDelta: int)

  /** The carried state and the outputs that grow with it. The position tree is the sequence of
      its leaves; an id outside it is rejected by the tree. */
  datatype State = State(
    positions: seq<Position>,
    orders: OrderBook,
    funding: FundingInfo,
    prices: seq<OraclePrice>,
    systemTime: int,
    modifications: seq<Modification>,
    conditions: seq<int>,
    fundingTable: seq<FundingInfo>)

  datatype BatchConfig = BatchConfig(
    general: GeneralConfig,
    minPrices: seq<OraclePrice>,
    maxPrices: seq<OraclePrice>,
    minExpiration: felt,
    pedersen: PairHash,
    verify: Verifier)

  datatype Transfer = Transfer(
    base: OrderBase, senderPositionId: felt, receiverPublicKey: felt, receiverPositionId: felt,
    amount: felt, assetId: felt)

  /** The prover's choices while walking the three arrays of a funding tick. */
  datatype TickChoice = Stop | AdvancePrice | AdvanceIndex | MatchAll

  datatype TickIndex = TickIndex(assetId: felt, fundingIndex: felt)
  datatype TickPrice = TickPrice(assetId: felt, price: felt)

  datatype Transaction =
    | Deposit(publicKey: felt, positionId: felt, amount: felt)
    | Withdrawal(base: OrderBase, positionId: felt, amount: felt, ownerKey: felt)
    | ForcedWithdrawal(publicKey: felt, positionId: felt, amount: felt, isValid: bool)
    | PlainTransfer(transfer: Transfer)
    | ConditionalTransfer(transfer: Transfer, condition: felt)
    | Trade(partyA: LimitOrder, partyB: LimitOrder, actualCollateral: felt, actualSynthetic: felt,
            actualAFee: felt, actualBFee: felt)
    | ForcedTrade(publicKeyA: felt, publicKeyB: felt, positionIdA: felt, positionIdB: felt,
                  syntheticAssetId: felt, amountCollateral: felt, amountSynthetic: felt,
                  isPartyABuyingSynthetic: bool, isValid: bool)
    | Liquidate(liquidatorOrder: LimitOrder, liquidatedPositionId: felt, actualCollateral: felt,
                actualSynthetic: felt, actualLiquidatorFee: felt)
    | Deleverage(deleveragablePositionId: felt, deleveragerPositionId: felt, syntheticAssetId: felt,
                 amountSynthetic: felt, amountCollateral: felt, deleveragerIsBuyingSynthetic: bool)
    | FundingTick(indices: seq<TickIndex>, timestamp: felt, tape: seq<TickChoice>)
    | OraclePricesTick(tickPrices: seq<TickPrice>, timestamp: felt)

  // ---- update_position_in_dict ----

  datatype DictUpdate = DictUpdate(positions: seq<Position>, funded: Position, updated: Position, code: ErrorCode)

  /** update_position_in_dict: the entry is written even when a code is reported. */
  function UpdateInDict(s: State, cfg: BatchConfig, id: int, requestKey: int, collateralDelta: int,
                        assetId: int, syntheticDelta: int): Outcome<DictUpdate>
  {
    var _ :- Require(0 <= id < |s.positions|);
    var u :- UpdatePosition.Apply(s.positions[id], requestKey, collateralDelta, assetId, syntheticDelta,
                                  s.funding, s.prices, cfg.general);
    Done(DictUpdate(s.positions[id := u.updated], u.funded, u.updated, u.code))
  }

  /** update_position_in_dict followed by assert_success. */
  function UpdateOrAbort(s: State, cfg: BatchConfig, id: int, requestKey: int, collateralDelta: int,
                         assetId: int, syntheticDelta: int): Outcome<State>
  {
    var u :- UpdateInDict(s, cfg, id, requestKey, collateralDelta, assetId, syntheticDelta);
    var _ :- Require(u.code == Success);
    Done(s.(positions := u.positions))
  }

  predicate IsAmount(a: int) {
    IsNnLe(a, AMOUNT_UPPER_BOUND - 1)
  }

  // ---- Transactions ----

  /** execute_deposit. */
  function ExecuteDeposit(s: State, cfg: BatchConfig, tx: Transaction): Outcome<State>
    requires tx.Deposit?
  {
    var _ :- Require(IsAmount(tx.amount));
    var s1 :- UpdateOrAbort(s, cfg, tx.positionId, tx.publicKey, tx.amount, NO_SYNTHETIC_DELTA_ASSET_ID, 0);
    Done(s1.(modifications := s1.modifications +
               [Modification(tx.publicKey, tx.positionId, tx.amount + AMOUNT_UPPER_BOUND)]))
  }

  /** execute_withdrawal. */
  function ExecuteWithdrawal(s: State, cfg: BatchConfig, tx: Transaction): Outcome<State>
    requires tx.Withdrawal?
  {
    var fields := WithdrawalFields(tx.positionId, tx.ownerKey, tx.amount, tx.base.nonce, tx.base.expirationTimestamp);
    var hash := WithdrawalHash(cfg.pedersen, fields, tx.base.publicKey, cfg.general.collateralAssetId);
    var orders :- ValidateOrderAndUpdateFulfillment(s.orders, hash, tx.base, cfg.minExpiration, tx.amount, tx.amount,
                                                    cfg.verify);
    var s1 :- UpdateOrAbort(s.(orders := orders), cfg, tx.positionId, tx.base.publicKey, -tx.amount,
                            NO_SYNTHETIC_DELTA_ASSET_ID, 0);
    Done(s1.(modifications := s1.modifications +
               [Modification(tx.ownerKey, tx.positionId, AMOUNT_UPPER_BOUND - tx.amount)]))
  }

  /** execute_forced_withdrawal: a request marked invalid must really fail. */
  function ExecuteForcedWithdrawal(s: State, cfg: BatchConfig, tx: Transaction): Outcome<State>
    requires tx.ForcedWithdrawal?
  {
    var _ :- Require(IsAmount(tx.amount));
    var u :- UpdateInDict(s, cfg, tx.positionId, tx.publicKey, -tx.amount, NO_SYNTHETIC_DELTA_ASSET_ID, 0);
    var _ :- Require(tx.isValid <==> u.code == Success);
    var s1 := s.(positions := u.positions);
    Done(if tx.isValid then
           s1.(modifications := s1.modifications +
                 [Modification(tx.publicKey, tx.positionId, AMOUNT_UPPER_BOUND - tx.amount)])
         else s1)
  }

  /** The two position updates of a transfer: sender first. */
  function MoveCollateral(s: State, cfg: BatchConfig, t: Transfer): Outcome<State> {
    var s1 :- UpdateOrAbort(s, cfg, t.senderPositionId, t.base.publicKey, -t.amount, NO_SYNTHETIC_DELTA_ASSET_ID, 0);
    UpdateOrAbort(s1, cfg, t.receiverPositionId, t.receiverPublicKey, t.amount, NO_SYNTHETIC_DELTA_ASSET_ID, 0)
  }

  /** execute_transfer and execute_conditional_transfer up to the output of the condition. */
  function ExecuteTransfer(s: State, cfg: BatchConfig, t: Transfer, condition: int): Outcome<State> {
    var _ :- Require(t.senderPositionId != t.receiverPositionId);
    var _ :- Require(IsAmount(t.amount));
    var _ :- Require(t.assetId == cfg.general.collateralAssetId);
    var fields := TransferFields(t.assetId, 0, t.receiverPublicKey, t.senderPositionId, t.receiverPositionId,
                                 t.senderPositionId, t.amount, 0, t.base.nonce, t.base.expirationTimestamp);
    var hash := TransferHash(cfg.pedersen, fields, condition);
    var orders :- ValidateOrderAndUpdateFulfillment(s.orders, hash, t.base, cfg.minExpiration, t.amount, t.amount,
                                                    cfg.verify);
    MoveCollateral(s.(orders := orders), cfg, t)
  }

  /** execute_conditional_transfer. */
  function ExecuteConditionalTransfer(s: State, cfg: BatchConfig, tx: Transaction): Outcome<State>
    requires tx.ConditionalTransfer?
  {
    var s1 :- ExecuteTransfer(s, cfg, tx.transfer, tx.condition);
    Done(s1.(conditions := s1.conditions + [tx.condition]))
  }

  /** The two position updates of a limit order: the fee position first, then the party. */
  function FillOrder(s: State, cfg: BatchConfig, o: LimitOrder, collateral: int, synthetic: int,
                     fee: int): Outcome<State>
  {
    var s1 :- UpdateOrAbort(s, cfg, cfg.general.feePositionId, cfg.general.feePublicKey, fee,
                            NO_SYNTHETIC_DELTA_ASSET_ID, 0);
    UpdateOrAbort(s1, cfg, o.positionId, o.base.publicKey,
                  (if o.isBuyingSynthetic then -collateral else collateral) - fee,
                  o.assetIdSynthetic, if o.isBuyingSynthetic then synthetic else -synthetic)
  }

  /** execute_limit_order. */
  function ExecuteLimitOrder(s: State, cfg: BatchConfig, o: LimitOrder, collateral: int, synthetic: int, fee: int)
    : Outcome<State>
  {
    var _ :- Require(o.positionId != cfg.general.feePositionId);
    var _ :- Require(o.assetIdCollateral == cfg.general.collateralAssetId);
    var _ :- Require(IsInRange(o.amountCollateral, 1, AMOUNT_UPPER_BOUND));
    var _ :- Require(IsAmount(o.amountFee));
    var _ :- Require(IsLe(1, synthetic));
    var _ :- ValidateFairness(o, collateral, synthetic, fee);
    var hash := LimitOrderHash(cfg.pedersen, ExchangeFields(o));
    var orders :- ValidateOrderAndUpdateFulfillment(s.orders, hash, o.base, cfg.minExpiration, synthetic,
                                                    o.amountSynthetic, cfg.verify);
    FillOrder(s.(orders := orders), cfg, o, collateral, synthetic, fee)
  }

  /** execute_trade. */
  function ExecuteTrade(s: State, cfg: BatchConfig, tx: Transaction): Outcome<State>
    requires tx.Trade?
  {
    var _ :- Require(IsAmount(tx.actualCollateral) && IsAmount(tx.actualAFee) && IsAmount(tx.actualBFee));
    var _ :- Require(tx.partyA.isBuyingSynthetic && !tx.partyB.isBuyingSynthetic);
    var s1 :- ExecuteLimitOrder(s, cfg, tx.partyA, tx.actualCollateral, tx.actualSynthetic, tx.actualAFee);
    var _ :- Require(tx.partyA.assetIdSynthetic == tx.partyB.assetIdSynthetic);
    var _ :- Require(tx.partyA.positionId != tx.partyB.positionId);
    ExecuteLimitOrder(s1, cfg, tx.partyB, tx.actualCollateral, tx.actualSynthetic, tx.actualBFee)
  }

  datatype TradeResult = TradeResult(buyer: Position, seller: Position, code: ErrorCode)

  /** try_to_trade: either both updated positions or both funded ones. */
  function TryToTrade(s: State, cfg: BatchConfig, buyer: Position, seller: Position, keyBuyer: int, keySeller: int,
                      assetId: int, collateral: int, synthetic: int): Outcome<TradeResult>
  {
    var a :- UpdatePosition.Apply(buyer, keyBuyer, -collateral, assetId, synthetic, s.funding, s.prices, cfg.general);
    var b :- UpdatePosition.Apply(seller, keySeller, collateral, assetId, -synthetic, s.funding, s.prices, cfg.general);
    if a.code == Success && b.code == Success then Done(TradeResult(a.updated, b.updated, Success))
    else Done(TradeResult(a.funded, b.funded, if a.code == Success then b.code else a.code))
  }

  /** execute_forced_trade. */
  function ExecuteForcedTrade(s: State, cfg: BatchConfig, tx: Transaction): Outcome<State>
    requires tx.ForcedTrade?
  {
    var _ :- Require(IsAmount(tx.amountCollateral) && IsAmount(tx.amountSynthetic));
    var _ :- Require(tx.positionIdA != tx.positionIdB);
    var _ :- Require(0 <= tx.positionIdA < |s.positions| && 0 <= tx.positionIdB < |s.positions|);
    var a, b := s.positions[tx.positionIdA], s.positions[tx.positionIdB];
    var r :- if tx.isPartyABuyingSynthetic
             then TryToTrade(s, cfg, a, b, tx.publicKeyA, tx.publicKeyB, tx.syntheticAssetId, tx.amountCollateral,
                             tx.amountSynthetic)
             else TryToTrade(s, cfg, b, a, tx.publicKeyB, tx.publicKeyA, tx.syntheticAssetId, tx.amountCollateral,
                             tx.amountSynthetic);
    var _ :- Require(tx.isValid <==> r.code == Success);
    var newA, newB := if tx.isPartyABuyingSynthetic then r.buyer else r.seller,
                      if tx.isPartyABuyingSynthetic then r.seller else r.buyer;
    Done(s.(positions := s.positions[tx.positionIdA := newA][tx.positionIdB := newB]))
  }

  /** The part of execute_liquidate that concerns the liquidated position. */
  function LiquidatePosition(s: State, cfg: BatchConfig, tx: Transaction): Outcome<State>
    requires tx.Liquidate?
  {
    var buying := tx.liquidatorOrder.isBuyingSynthetic;
    var assetId := tx.liquidatorOrder.assetIdSynthetic;
    var collateralDelta := if buying then tx.actualCollateral else -tx.actualCollateral;
    var syntheticDelta := if buying then -tx.actualSynthetic else tx.actualSynthetic;
    var _ :- Require(0 <= tx.liquidatedPositionId < |s.positions|);
    var funded :- ApplyFunding(s.positions[tx.liquidatedPositionId], s.funding);
    var status :- GetStatus(funded, s.prices, cfg.general);
    var _ :- Require(status.code == Success);
    var _ :- Require(Is250Bit(status.tr - (status.tv * FXP_32_ONE + 1)));
    var balance := GetAssetBalance(funded, assetId);
    var _ :- Require(if buying then IsNnLe(-syntheticDelta, balance) else IsNnLe(syntheticDelta, -balance));
    var u :- UpdatePosition.Apply(funded, funded.publicKey, collateralDelta, assetId, syntheticDelta,
                                  s.funding, s.prices, cfg.general);
    var _ :- Require(u.code == Success);
    Done(s.(positions := s.positions[tx.liquidatedPositionId := u.updated]))
  }

  /** execute_liquidate. */
  function ExecuteLiquidate(s: State, cfg: BatchConfig, tx: Transaction): Outcome<State>
    requires tx.Liquidate?
  {
    var _ :- Require(IsAmount(tx.actualCollateral) && IsAmount(tx.actualLiquidatorFee));
    var _ :- Require(tx.liquidatorOrder.positionId != tx.liquidatedPositionId);
    var s1 :- LiquidatePosition(s, cfg, tx);
    ExecuteLimitOrder(s1, cfg, tx.liquidatorOrder, tx.actualCollateral, tx.actualSynthetic, tx.actualLiquidatorFee)
  }

  /** The field check of execute_deleverage that the trade is the tightest valid one. */
  predicate DeleverageIsTight(tv0: int, tr0: int, tv1: int, tr1: int) {
    Is250Bit(tv0 * tr1 - ((tv1 - FXP_32_ONE) * tr0 + 1))
  }

  /** The checks of execute_deleverage on the funded and updated positions: the deleverager holds
      what it gives, the deleveragable position is insolvent, and the trade is tight. */
  function ValidateDeleverage(s: State, cfg: BatchConfig, tx: Transaction, u0: DictUpdate,
                              deleverager: Position): Outcome<()>
    requires tx.Deleverage?
  {
    var balance := GetAssetBalance(deleverager, tx.syntheticAssetId);
    var _ :- Require(IsNnLe(tx.amountSynthetic, if tx.deleveragerIsBuyingSynthetic then -balance else balance));
    var status0 :- GetStatus(u0.funded, s.prices, cfg.general);
    var _ :- Require(status0.code == Success);
    var _ :- Require(IsLe(status0.tv, -1));
    var status1 :- GetStatus(u0.updated, s.prices, cfg.general);
    var _ :- Require(status1.code == Success);
    Require(DeleverageIsTight(status0.tv, status0.tr, status1.tv, status1.tr))
  }

  /** execute_deleverage. */
  function ExecuteDeleverage(s: State, cfg: BatchConfig, tx: Transaction): Outcome<State>
    requires tx.Deleverage?
  {
    var _ :- Require(IsAmount(tx.amountSynthetic) && IsAmount(tx.amountCollateral));
    var _ :- Require(tx.deleveragerPositionId != tx.deleveragablePositionId);
    var buying := tx.deleveragerIsBuyingSynthetic;
    var synthetic := if buying then tx.amountSynthetic else -tx.amountSynthetic;
    var collateral := if buying then -tx.amountCollateral else tx.amountCollateral;
    var u0 :- UpdateInDict(s, cfg, tx.deleveragablePositionId, 0, -collateral, tx.syntheticAssetId, -synthetic);
    var _ :- Require(u0.code == Success);
    var s1 := s.(positions := u0.positions);
    var u1 :- UpdateInDict(s1, cfg, tx.deleveragerPositionId, 0, collateral, tx.syntheticAssetId, synthetic);
    var _ :- Require(u1.code == Success);
    var _ :- ValidateDeleverage(s, cfg, tx, u0, u1.funded);
    Done(s.(positions := u1.positions))
  }

  // ---- Ticks ----

  /** assert_le(last + 1, id) on asset ids. The ids climb by less than 2^128 per entry, so a wrap
      around P would take 2^122 entries; the comparison is made on the integers. */
  predicate NextId(last: int, id: int) {
    0 <= id - (last + 1) < RC_BOUND
  }

  /** validate_funding_index_diff_in_range. */
  predicate RateInRange(maxRate: int, diff: int, dt: int, price: int) {
    && Abs(diff) < RC_BOUND
    && Is250Bit(maxRate * price * dt - Abs(diff) * FXP_32_ONE)
  }

  /** validate_funding_tick_inner: walks the previous indices, the new indices and the prices under
      the prover's choices; all three must be used up at the end. */
  function ValidateTick(prev: seq<FundingIndex>, next: seq<TickIndex>, prices: seq<OraclePrice>, last: int,
                        maxRate: int, dt: int, tape: seq<TickChoice>): Outcome<()>
    decreases |tape|
  {
    if tape == [] then Abort
    else
      match tape[0]
      case Stop =>
        Require(prev == [] && next == [] && prices == [] && 0 <= ASSET_ID_UPPER_BOUND - (last + 1) < RC_BOUND)
      case AdvancePrice =>
        var _ :- Require(prices != []);
        ValidateTick(prev, next, prices[1..], last, maxRate, dt, tape[1..])
      case AdvanceIndex =>
        var _ :- Require(next != [] && NextId(last, next[0].assetId));
        var _ :- Require(IsInRange(next[0].fundingIndex, FUNDING_INDEX_LOWER_BOUND, FUNDING_INDEX_UPPER_BOUND));
        ValidateTick(prev, next[1..], prices, next[0].assetId, maxRate, dt, tape[1..])
      case MatchAll =>
        var _ :- Require(next != [] && NextId(last, next[0].assetId));
        var _ :- Require(IsInRange(next[0].fundingIndex, FUNDING_INDEX_LOWER_BOUND, FUNDING_INDEX_UPPER_BOUND));
        var _ :- Require(prev != [] && prices != []);
        var _ :- Require(prev[0].assetId == next[0].assetId == prices[0].assetId);
        var _ :- Require(RateInRange(maxRate, next[0].fundingIndex - prev[0].fundingIndex, dt, prices[0].price));
        ValidateTick(prev[1..], next[1..], prices[1..], next[0].assetId, maxRate, dt, tape[1..])
  }

  function ToIndices(next: seq<TickIndex>): (r: seq<FundingIndex>)
    ensures |r| == |next|
    ensures forall i :: 0 <= i < |next| ==> r[i] == FundingIndex(next[i].assetId, next[i].fundingIndex)
  {
    if next == [] then []
    else [FundingIndex(next[0].assetId, next[0].fundingIndex)] + ToIndices(next[1..])
  }

  /** execute_funding_tick. */
  function ExecuteFundingTick(s: State, cfg: BatchConfig, tx: Transaction): Outcome<State>
    requires tx.FundingTick?
  {
    var _ :- Require(0 <= tx.timestamp - s.systemTime < RC_BOUND);
    var _ :- ValidateTick(s.funding.indices, tx.indices, s.prices, -1, cfg.general.maxFundingRate,
                          tx.timestamp - s.funding.timestamp, tx.tape);
    var info := FundingInfo(ToIndices(tx.indices), tx.timestamp);
    Done(s.(funding := info, systemTime := tx.timestamp, fundingTable := s.fundingTable + [info]))
  }

  function PriceLowerBound(prices: seq<OraclePrice>, id: int): (k: nat)
    ensures k <= |prices|
    ensures forall i :: 0 <= i < k ==> prices[i].assetId < id
    ensures k < |prices| ==> id <= prices[k].assetId
  {
    if prices == [] || id <= prices[0].assetId then 0 else 1 + PriceLowerBound(prices[1..], id)
  }

  /** insert_oracle_prices_until_asset_id: the previous prices below `id`. */
  function PricesBefore(prev: seq<OraclePrice>, id: int): seq<OraclePrice> {
    prev[..PriceLowerBound(prev, id)]
  }

  /** The previous prices that remain after the tick entry `id` has been inserted. */
  function PricesAfter(prev: seq<OraclePrice>, id: int): seq<OraclePrice> {
    var k := PriceLowerBound(prev, id);
    if k < |prev| && prev[k].assetId == id then prev[k + 1..] else prev[k..]
  }

  /** create_new_oracle_prices_and_validate_tick: a merge in which the tick wins. */
  function MergePrices(prev: seq<OraclePrice>, tick: seq<TickPrice>, last: int, cfg: BatchConfig)
    : Outcome<seq<OraclePrice>>
    decreases |tick|
  {
    if tick == [] then
      var _ :- Require(0 <= ASSET_ID_UPPER_BOUND - 1 - last < RC_BOUND);
      Done(PricesBefore(prev, ASSET_ID_UPPER_BOUND))
    else
      var id := tick[0].assetId;
      var _ :- Require(NextId(last, id));
      match (FindPrice(cfg.minPrices, id), FindPrice(cfg.maxPrices, id))
      case (Some(low), Some(high)) =>
        var _ :- Require(IsInRange(tick[0].price, low, high + 1));
        var merged :- MergePrices(PricesAfter(prev, id), tick[1..], id, cfg);
        Done(PricesBefore(prev, id) + [OraclePrice(id, tick[0].price)] + merged)
      case _ => Abort
  }

  /** execute_oracle_prices_tick. */
  function ExecuteOraclePricesTick(s: State, cfg: BatchConfig, tx: Transaction): Outcome<State>
    requires tx.OraclePricesTick?
  {
    var _ :- Require(0 <= tx.timestamp - s.systemTime < RC_BOUND);
    var prices :- MergePrices(s.prices, tx.tickPrices, -1, cfg);
    Done(s.(prices := prices, systemTime := tx.timestamp))
  }

  // ---- The batch ----

  /** The check that the last funding tick is recent enough. */
  predicate FundingIsFresh(s: State, cfg: BatchConfig) {
    IsLe(s.systemTime, s.funding.timestamp + cfg.general.fundingValidityPeriod)
  }

  /** execute_transaction. */
  function ExecuteTransaction(s: State, cfg: BatchConfig, tx: Transaction): Outcome<State> {
    if tx.OraclePricesTick? then ExecuteOraclePricesTick(s, cfg, tx)
    else if tx.FundingTick? then ExecuteFundingTick(s, cfg, tx)
    else
      var _ :- Require(FundingIsFresh(s, cfg));
      if tx.Trade? then ExecuteTrade(s, cfg, tx)
      else if tx.Deposit? then ExecuteDeposit(s, cfg, tx)
      else if tx.PlainTransfer? then ExecuteTransfer(s, cfg, tx.transfer, 0)
      else if tx.ConditionalTransfer? then ExecuteConditionalTransfer(s, cfg, tx)
      else if tx.Liquidate? then ExecuteLiquidate(s, cfg, tx)
      else if tx.Deleverage? then ExecuteDeleverage(s, cfg, tx)
      else if tx.Withdrawal? then ExecuteWithdrawal(s, cfg, tx)
      else if tx.ForcedWithdrawal? then ExecuteForcedWithdrawal(s, cfg, tx)
      else ExecuteForcedTrade(s, cfg, tx)
  }

  /** execute_batch_transactions. */
  function ExecuteTransactions(s: State, cfg: BatchConfig, txs: seq<Transaction>): Outcome<State>
    decreases |txs|
  {
    if txs == [] then Done(s)
    else
      var s1 :- ExecuteTransaction(s, cfg, txs[0]);
      ExecuteTransactions(s1, cfg, txs[1..])
  }
}
