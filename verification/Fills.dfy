/** What a signed perpetual limit order can cost its owner over a whole batch: fills of one signed
    message never exceed its amounts, and the prices it pays round by at most one unit per fill. */
module Fills {
  import opened Felt
  import opened PerpetualTypes
  import opened Arithmetic
  import opened MessageHashes
  import opened Orders
  import opened Batch
  import opened BatchInvariants
  import opened UpdatePosition
  import BatchAuthorization
  import BatchJournal

  datatype Fill = Fill(collateral: int, synthetic: int, fee: int)

  function OrderIdOf(cfg: BatchConfig, o: LimitOrder): int {
    ExtractOrderId(LimitOrderHash(cfg.pedersen, ExchangeFields(o)))
  }

  /** The two orders are one signed message. The key that signs and the signature are not part of
      the message. */
  predicate SameMessage(a: LimitOrder, b: LimitOrder) {
    ExchangeFields(a) == ExchangeFields(b) && a.isBuyingSynthetic == b.isBuyingSynthetic
  }

  function FillsOf(party: LimitOrder, f: Fill, o: LimitOrder): seq<Fill> {
    if SameMessage(party, o) then [f] else []
  }

  /** The fills of the message of `o` that a transaction makes, under whatever keys and signatures. */
  function FillsIn(tx: Transaction, o: LimitOrder): seq<Fill> {
    if tx.Trade? then
      FillsOf(tx.partyA, Fill(tx.actualCollateral, tx.actualSynthetic, tx.actualAFee), o)
      + FillsOf(tx.partyB, Fill(tx.actualCollateral, tx.actualSynthetic, tx.actualBFee), o)
    else if tx.Liquidate?
        then FillsOf(tx.liquidatorOrder, Fill(tx.actualCollateral, tx.actualSynthetic, tx.actualLiquidatorFee), o)
    else []
  }

  function FillsOver(txs: seq<Transaction>, o: LimitOrder): seq<Fill> {
    if txs == [] then [] else FillsIn(txs[0], o) + FillsOver(txs[1..], o)
  }

  function TotalCollateral(fs: seq<Fill>): int {
    if fs == [] then 0 else fs[0].collateral + TotalCollateral(fs[1..])
  }

  function TotalSynthetic(fs: seq<Fill>): int {
    if fs == [] then 0 else fs[0].synthetic + TotalSynthetic(fs[1..])
  }

  function TotalFee(fs: seq<Fill>): int {
    if fs == [] then 0 else fs[0].fee + TotalFee(fs[1..])
  }

  lemma {:induction false} TotalsConcat(a: seq<Fill>, b: seq<Fill>)
    ensures TotalCollateral(a + b) == TotalCollateral(a) + TotalCollateral(b)
    ensures TotalSynthetic(a + b) == TotalSynthetic(a) + TotalSynthetic(b)
    ensures TotalFee(a + b) == TotalFee(a) + TotalFee(b)
  {
    if a == [] {
      assert a + b == b;
    } else {
      assert (a + b)[1..] == a[1..] + b;
      TotalsConcat(a[1..], b);
    }
  }

  /** A fill within the amounts and at the ratios that the user signed. */
  predicate FairFill(o: LimitOrder, f: Fill) {
    FairnessAssumptions(o, f.collateral, f.synthetic, f.fee) && Fair(o, f.collateral, f.synthetic, f.fee)
  }

  predicate AllFair(o: LimitOrder, fs: seq<Fill>) {
    forall i :: 0 <= i < |fs| ==> FairFill(o, fs[i])
  }

  /** Between two order books the order made the fills `fs`. */
  predicate Filled(before: OrderBook, after: OrderBook, id: int, o: LimitOrder, fs: seq<Fill>) {
    && ValidOrders(after)
    && AllFair(o, fs)
    && Fulfilled(before, id) + TotalSynthetic(fs) <= Fulfilled(after, id)
    && (fs != [] ==> Fulfilled(before, id) + TotalSynthetic(fs) <= o.amountSynthetic)
  }

  lemma {:induction false} FilledCompose(a: OrderBook, b: OrderBook, c: OrderBook, id: int, o: LimitOrder,
                                         fs: seq<Fill>, gs: seq<Fill>)
    requires Filled(a, b, id, o, fs) && Filled(b, c, id, o, gs)
    ensures Filled(a, c, id, o, fs + gs)
  {
    TotalsConcat(fs, gs);
    if gs == [] { assert fs + gs == fs; }
  }

  lemma {:induction false} NothingFilled(a: OrderBook, b: OrderBook, id: int, o: LimitOrder)
    requires ValidOrders(b) && Fulfilled(a, id) <= Fulfilled(b, id)
    ensures Filled(a, b, id, o, [])
  {
  }

  /** One message has one order id, one set of fair fills and one amount. */
  lemma {:induction false} MessageAgrees(cfg: BatchConfig, a: LimitOrder, b: LimitOrder, f: Fill)
    requires SameMessage(a, b)
    ensures OrderIdOf(cfg, a) == OrderIdOf(cfg, b)
    ensures FairFill(a, f) <==> FairFill(b, f)
    ensures a.amountSynthetic == b.amountSynthetic
  {
    hide LimitOrderHash, ExtractOrderId;
  }

  /** The fills counted for an order are exactly those whose message has its hash, if the pair hash
      has no collisions; the hash tells buying from selling unless the order trades the collateral for
      itself. The order dictionary is keyed by the first 64 bits of that hash. */
  lemma {:induction false} SameMessageIsSameHash(h: PairHash, a: LimitOrder, b: LimitOrder)
    requires Injective(h) && ValidLimitFields(ExchangeFields(a)) && ValidLimitFields(ExchangeFields(b))
    ensures var same := LimitOrderHash(h, ExchangeFields(a)) == LimitOrderHash(h, ExchangeFields(b));
      && (SameMessage(a, b) <==> same && a.isBuyingSynthetic == b.isBuyingSynthetic)
      && (same && a.assetIdSynthetic != a.assetIdCollateral ==> a.isBuyingSynthetic == b.isBuyingSynthetic)
  {
    hide LimitOrderHash;
    if LimitOrderHash(h, ExchangeFields(a)) == LimitOrderHash(h, ExchangeFields(b)) {
      LimitOrderHashCommits(h, ExchangeFields(a), ExchangeFields(b));
    }
  }

  // ---- Transactions on the order book ----

  /** A signed order of any kind only adds to the fulfilled amounts. */
  lemma {:induction false} BookGrows(orders: OrderBook, hash: int, base: OrderBase, minExpiration: int, amount: felt,
                                     full: felt, verify: Verifier, id: int)
    requires ValidOrders(orders)
    requires ValidateOrderAndUpdateFulfillment(orders, hash, base, minExpiration, amount, full, verify).Done?
    ensures var r := ValidateOrderAndUpdateFulfillment(orders, hash, base, minExpiration, amount, full, verify).value;
      && ValidOrders(r)
      && Fulfilled(r, id) == Fulfilled(orders, id) + (if id == ExtractOrderId(hash) then amount else 0)
      && 0 <= amount && Fulfilled(orders, ExtractOrderId(hash)) + amount <= full < AMOUNT_UPPER_BOUND
  {
    FulfillmentExact(orders, hash, amount, full);
  }

  lemma {:induction false} UpdateKeepsOrders(s: State, cfg: BatchConfig, id: int, requestKey: int,
                                             collateralDelta: int, assetId: int, syntheticDelta: int)
    requires UpdateOrAbort(s, cfg, id, requestKey, collateralDelta, assetId, syntheticDelta).Done?
    ensures UpdateOrAbort(s, cfg, id, requestKey, collateralDelta, assetId, syntheticDelta).value.orders == s.orders
  {
    hide UpdateInDict;
  }

  lemma {:induction false} TransferBook(s: State, cfg: BatchConfig, t: Transfer, condition: int, id: int, o: LimitOrder)
    requires ValidOrders(s.orders) && ExecuteTransfer(s, cfg, t, condition).Done?
    ensures Filled(s.orders, ExecuteTransfer(s, cfg, t, condition).value.orders, id, o, [])
  {
    hide UpdateOrAbort, ValidateOrderAndUpdateFulfillment, TransferHash, ExtractOrderId;
    var fields := TransferFields(t.assetId, 0, t.receiverPublicKey, t.senderPositionId, t.receiverPositionId,
                                 t.senderPositionId, t.amount, 0, t.base.nonce, t.base.expirationTimestamp);
    var hash := TransferHash(cfg.pedersen, fields, condition);
    BookGrows(s.orders, hash, t.base, cfg.minExpiration, t.amount, t.amount, cfg.verify, id);
    var orders := ValidateOrderAndUpdateFulfillment(s.orders, hash, t.base, cfg.minExpiration, t.amount, t.amount,
                                                    cfg.verify).value;
    var s1 := s.(orders := orders);
    UpdateKeepsOrders(s1, cfg, t.senderPositionId, t.base.publicKey, -t.amount, NO_SYNTHETIC_DELTA_ASSET_ID, 0);
    var s2 := UpdateOrAbort(s1, cfg, t.senderPositionId, t.base.publicKey, -t.amount, NO_SYNTHETIC_DELTA_ASSET_ID,
                            0).value;
    UpdateKeepsOrders(s2, cfg, t.receiverPositionId, t.receiverPublicKey, t.amount, NO_SYNTHETIC_DELTA_ASSET_ID, 0);
    NothingFilled(s.orders, orders, id, o);
  }

  lemma {:induction false} WithdrawalBook(s: State, cfg: BatchConfig, tx: Transaction, id: int, o: LimitOrder)
    requires tx.Withdrawal? && ValidOrders(s.orders) && ExecuteWithdrawal(s, cfg, tx).Done?
    ensures Filled(s.orders, ExecuteWithdrawal(s, cfg, tx).value.orders, id, o, [])
  {
    hide UpdateOrAbort, ValidateOrderAndUpdateFulfillment, WithdrawalHash, ExtractOrderId;
    var fields := WithdrawalFields(tx.positionId, tx.ownerKey, tx.amount, tx.base.nonce, tx.base.expirationTimestamp);
    var hash := WithdrawalHash(cfg.pedersen, fields, tx.base.publicKey, cfg.general.collateralAssetId);
    BookGrows(s.orders, hash, tx.base, cfg.minExpiration, tx.amount, tx.amount, cfg.verify, id);
    var orders := ValidateOrderAndUpdateFulfillment(s.orders, hash, tx.base, cfg.minExpiration, tx.amount, tx.amount,
                                                    cfg.verify).value;
    UpdateKeepsOrders(s.(orders := orders), cfg, tx.positionId, tx.base.publicKey, -tx.amount,
                      NO_SYNTHETIC_DELTA_ASSET_ID, 0);
    NothingFilled(s.orders, orders, id, o);
  }

  lemma {:induction false} FillKeepsOrders(s: State, cfg: BatchConfig, o: LimitOrder, collateral: int, synthetic: int,
                                           fee: int)
    requires FillOrder(s, cfg, o, collateral, synthetic, fee).Done?
    ensures FillOrder(s, cfg, o, collateral, synthetic, fee).value.orders == s.orders
  {
    hide UpdateOrAbort;
    UpdateKeepsOrders(s, cfg, cfg.general.feePositionId, cfg.general.feePublicKey, fee, NO_SYNTHETIC_DELTA_ASSET_ID, 0);
    var s1 := UpdateOrAbort(s, cfg, cfg.general.feePositionId, cfg.general.feePublicKey, fee,
                            NO_SYNTHETIC_DELTA_ASSET_ID, 0).value;
    UpdateKeepsOrders(s1, cfg, o.positionId, o.base.publicKey,
                      (if o.isBuyingSynthetic then -collateral else collateral) - fee, o.assetIdSynthetic,
                      if o.isBuyingSynthetic then synthetic else -synthetic);
  }

  /** The checks of an accepted limit order. */
  lemma {:induction false} LimitOrderChecks(s: State, cfg: BatchConfig, o: LimitOrder, collateral: int, synthetic: int,
                                            fee: int)
    requires ExecuteLimitOrder(s, cfg, o, collateral, synthetic, fee).Done?
    ensures IsInRange(o.amountCollateral, 1, AMOUNT_UPPER_BOUND) && IsAmount(o.amountFee) && IsLe(1, synthetic)
    ensures ValidateFairness(o, collateral, synthetic, fee).Done?
    ensures var book := ValidateOrderAndUpdateFulfillment(s.orders, LimitOrderHash(cfg.pedersen, ExchangeFields(o)),
                                                          o.base, cfg.minExpiration, synthetic, o.amountSynthetic,
                                                          cfg.verify);
      book.Done? && ExecuteLimitOrder(s, cfg, o, collateral, synthetic, fee).value.orders == book.value
  {
    hide UpdateOrAbort, FillOrder, ValidateOrderAndUpdateFulfillment, LimitOrderHash, IsAmount, IsInRange, IsLe,
      ValidateFairness;
    var orders := ValidateOrderAndUpdateFulfillment(s.orders, LimitOrderHash(cfg.pedersen, ExchangeFields(o)), o.base,
                                                    cfg.minExpiration, synthetic, o.amountSynthetic, cfg.verify).value;
    FillKeepsOrders(s.(orders := orders), cfg, o, collateral, synthetic, fee);
  }

  /** What the range checks of an accepted limit order give: the assumptions of its fairness test. */
  lemma {:induction false} CheckedAmounts(o: LimitOrder, collateral: felt, synthetic: felt, fee: felt)
    requires IsInRange(o.amountCollateral, 1, AMOUNT_UPPER_BOUND) && IsAmount(o.amountFee) && IsLe(1, synthetic)
    requires IsAmount(collateral) && IsAmount(fee)
    requires synthetic <= o.amountSynthetic < AMOUNT_UPPER_BOUND
    ensures FairnessAssumptions(o, collateral, synthetic, fee)
  {
  }

  /** An accepted limit order is a fair fill of its own order and leaves every other fulfilment at
      least as it was. */
  lemma {:induction false} LimitOrderBook(s: State, cfg: BatchConfig, party: LimitOrder, collateral: felt,
                                          synthetic: felt, fee: felt, o: LimitOrder)
    requires ValidOrders(s.orders) && IsAmount(collateral) && IsAmount(fee)
    requires ExecuteLimitOrder(s, cfg, party, collateral, synthetic, fee).Done?
    ensures Filled(s.orders, ExecuteLimitOrder(s, cfg, party, collateral, synthetic, fee).value.orders,
                   OrderIdOf(cfg, o), o, FillsOf(party, Fill(collateral, synthetic, fee), o))
  {
    hide ExecuteLimitOrder, ValidateFairness, Fair, LimitOrderHash, ExtractOrderId,
      ValidateOrderAndUpdateFulfillment, IsAmount, IsInRange, IsLe, Fulfilled, ValidOrders;
    LimitOrderChecks(s, cfg, party, collateral, synthetic, fee);
    BookGrows(s.orders, LimitOrderHash(cfg.pedersen, ExchangeFields(party)), party.base, cfg.minExpiration, synthetic,
              party.amountSynthetic, cfg.verify, OrderIdOf(cfg, o));
    FulfilledIsNatural(s.orders, OrderIdOf(cfg, party));
    CheckedAmounts(party, collateral, synthetic, fee);
    FairnessExact(party, collateral, synthetic, fee);
    var after := ExecuteLimitOrder(s, cfg, party, collateral, synthetic, fee).value.orders;
    if SameMessage(party, o) {
      MessageAgrees(cfg, party, o, Fill(collateral, synthetic, fee));
      SingleFill(s.orders, after, OrderIdOf(cfg, o), o, Fill(collateral, synthetic, fee));
    } else {
      NothingFilled(s.orders, after, OrderIdOf(cfg, o), o);
    }
  }

  lemma {:induction false} SingleFill(a: OrderBook, b: OrderBook, id: int, o: LimitOrder, f: Fill)
    requires ValidOrders(b) && FairFill(o, f)
    requires Fulfilled(b, id) == Fulfilled(a, id) + f.synthetic <= o.amountSynthetic
    ensures Filled(a, b, id, o, [f])
  {
    assert [f][1..] == [];
  }

  lemma {:induction false} FulfilledIsNatural(orders: OrderBook, id: int)
    requires ValidOrders(orders)
    ensures 0 <= Fulfilled(orders, id)
  {
  }

  lemma {:induction false} TradeBook(s: State, cfg: BatchConfig, tx: Transaction, o: LimitOrder)
    requires tx.Trade? && ValidOrders(s.orders) && ExecuteTrade(s, cfg, tx).Done?
    ensures Filled(s.orders, ExecuteTrade(s, cfg, tx).value.orders, OrderIdOf(cfg, o), o, FillsIn(tx, o))
  {
    hide ExecuteLimitOrder, IsAmount, Filled, ValidOrders, OrderIdOf;
    LimitOrderBook(s, cfg, tx.partyA, tx.actualCollateral, tx.actualSynthetic, tx.actualAFee, o);
    var s1 := ExecuteLimitOrder(s, cfg, tx.partyA, tx.actualCollateral, tx.actualSynthetic, tx.actualAFee).value;
    FilledIsValid(s.orders, s1.orders, OrderIdOf(cfg, o), o,
                  FillsOf(tx.partyA, Fill(tx.actualCollateral, tx.actualSynthetic, tx.actualAFee), o));
    LimitOrderBook(s1, cfg, tx.partyB, tx.actualCollateral, tx.actualSynthetic, tx.actualBFee, o);
    var s2 := ExecuteLimitOrder(s1, cfg, tx.partyB, tx.actualCollateral, tx.actualSynthetic, tx.actualBFee).value;
    FilledCompose(s.orders, s1.orders, s2.orders, OrderIdOf(cfg, o), o,
                  FillsOf(tx.partyA, Fill(tx.actualCollateral, tx.actualSynthetic, tx.actualAFee), o),
                  FillsOf(tx.partyB, Fill(tx.actualCollateral, tx.actualSynthetic, tx.actualBFee), o));
  }

  lemma {:induction false} FilledIsValid(a: OrderBook, b: OrderBook, id: int, o: LimitOrder, fs: seq<Fill>)
    requires Filled(a, b, id, o, fs)
    ensures ValidOrders(b)
  {
  }

  lemma {:induction false} LiquidateBook(s: State, cfg: BatchConfig, tx: Transaction, o: LimitOrder)
    requires tx.Liquidate? && ValidOrders(s.orders) && ExecuteLiquidate(s, cfg, tx).Done?
    ensures Filled(s.orders, ExecuteLiquidate(s, cfg, tx).value.orders, OrderIdOf(cfg, o), o, FillsIn(tx, o))
  {
    hide ExecuteLimitOrder, LiquidatePosition, IsAmount, Filled, ValidOrders, OrderIdOf;
    LiquidationKeepsOrders(s, cfg, tx);
    var s1 := LiquidatePosition(s, cfg, tx).value;
    LimitOrderBook(s1, cfg, tx.liquidatorOrder, tx.actualCollateral, tx.actualSynthetic, tx.actualLiquidatorFee, o);
  }

  lemma {:induction false} LiquidationKeepsOrders(s: State, cfg: BatchConfig, tx: Transaction)
    requires tx.Liquidate? && LiquidatePosition(s, cfg, tx).Done?
    ensures LiquidatePosition(s, cfg, tx).value.orders == s.orders
  {
    hide UpdatePosition.Apply, Status.GetStatus, Funding.ApplyFunding, GetAssetBalance, IsNnLe, Is250Bit;
  }

  lemma {:induction false} OthersKeepOrders(s: State, cfg: BatchConfig, tx: Transaction)
    requires tx.Deposit? || tx.ForcedWithdrawal? || tx.ForcedTrade? || tx.Deleverage? || tx.FundingTick?
             || tx.OraclePricesTick?
    requires ExecuteTransaction(s, cfg, tx).Done?
    ensures ExecuteTransaction(s, cfg, tx).value.orders == s.orders
  {
    hide UpdateInDict, TryToTrade, ValidateDeleverage, ValidateTick, MergePrices, IsAmount, FundingIsFresh;
  }

  /** One transaction. */
  lemma {:induction false} StepFills(s: State, cfg: BatchConfig, tx: Transaction, o: LimitOrder)
    requires ValidOrders(s.orders) && ExecuteTransaction(s, cfg, tx).Done?
    ensures Filled(s.orders, ExecuteTransaction(s, cfg, tx).value.orders, OrderIdOf(cfg, o), o, FillsIn(tx, o))
  {
    hide ExecuteTrade, ExecuteDeposit, ExecuteTransfer, ExecuteLiquidate, ExecuteDeleverage, ExecuteWithdrawal,
      ExecuteForcedWithdrawal, ExecuteForcedTrade, ExecuteFundingTick, ExecuteOraclePricesTick, FundingIsFresh, Filled,
      OrderIdOf;
    var id := OrderIdOf(cfg, o);
    if tx.Trade? {
      TradeBook(s, cfg, tx, o);
    } else if tx.Liquidate? {
      LiquidateBook(s, cfg, tx, o);
    } else if tx.PlainTransfer? {
      TransferBook(s, cfg, tx.transfer, 0, id, o);
    } else if tx.ConditionalTransfer? {
      TransferBook(s, cfg, tx.transfer, tx.condition, id, o);
    } else if tx.Withdrawal? {
      WithdrawalBook(s, cfg, tx, id, o);
    } else {
      OthersKeepOrders(s, cfg, tx);
      NothingFilled(s.orders, s.orders, id, o);
    }
  }

  /** Over any batch, the fills of one signed message are fair and total at most what was still open. */
  lemma {:induction false} RunFills(s: State, cfg: BatchConfig, txs: seq<Transaction>, o: LimitOrder)
    requires ValidOrders(s.orders) && ExecuteTransactions(s, cfg, txs).Done?
    ensures Filled(s.orders, ExecuteTransactions(s, cfg, txs).value.orders, OrderIdOf(cfg, o), o, FillsOver(txs, o))
    decreases |txs|
  {
    hide ExecuteTransaction, Filled, FillsIn, OrderIdOf, ValidOrders;
    if txs == [] {
      NothingFilled(s.orders, s.orders, OrderIdOf(cfg, o), o);
    } else {
      var s1 := ExecuteTransaction(s, cfg, txs[0]).value;
      StepFills(s, cfg, txs[0], o);
      FilledIsValid(s.orders, s1.orders, OrderIdOf(cfg, o), o, FillsIn(txs[0], o));
      RunFills(s1, cfg, txs[1..], o);
      FilledCompose(s.orders, s1.orders, ExecuteTransactions(s1, cfg, txs[1..]).value.orders, OrderIdOf(cfg, o), o,
                    FillsIn(txs[0], o), FillsOver(txs[1..], o));
    }
  }

  // ---- What the fills add up to ----

  /** Sums of the fairness inequalities of a buy order. */
  lemma {:induction false} BuySums(o: LimitOrder, fs: seq<Fill>)
    requires AllFair(o, fs) && o.isBuyingSynthetic
    ensures 0 <= TotalCollateral(fs) && |fs| <= TotalSynthetic(fs)
    ensures fs != [] ==>
              TotalCollateral(fs) == 0
                  || (TotalCollateral(fs) - |fs|) * o.amountSynthetic < o.amountCollateral * TotalSynthetic(fs)
    decreases |fs|
  {
    if fs != [] {
      var f, rest := fs[0], fs[1..];
      BuySums(o, rest);
      assert FairFill(o, f);
      BuyStep(o.amountSynthetic, o.amountCollateral, f.collateral, f.synthetic, TotalCollateral(rest),
              TotalSynthetic(rest), |rest|);
    }
  }

  /** Sums of the fairness inequalities of a sell order. */
  lemma {:induction false} SellSums(o: LimitOrder, fs: seq<Fill>)
    requires AllFair(o, fs) && !o.isBuyingSynthetic && fs != []
    ensures TotalSynthetic(fs) * o.amountCollateral < o.amountSynthetic * (TotalCollateral(fs) + |fs|)
    decreases |fs|
  {
    var f, rest := fs[0], fs[1..];
    assert FairFill(o, f);
    if rest == [] {
      assert TotalSynthetic(fs) == f.synthetic && TotalCollateral(fs) == f.collateral;
    } else {
      SellSums(o, rest);
      SellStep(o.amountSynthetic, o.amountCollateral, f.collateral, f.synthetic, TotalCollateral(rest),
               TotalSynthetic(rest), |rest|);
    }
  }

  lemma {:induction false} FeeSums(o: LimitOrder, fs: seq<Fill>)
    requires AllFair(o, fs)
    ensures TotalFee(fs) * o.amountCollateral <= o.amountFee * TotalCollateral(fs)
    decreases |fs|
  {
    if fs != [] {
      var f, rest := fs[0], fs[1..];
      FeeSums(o, rest);
      assert FairFill(o, f);
      Distribute(f.fee, TotalFee(rest), o.amountCollateral);
      Distribute(f.collateral, TotalCollateral(rest), o.amountFee);
    }
  }

  lemma {:induction false} SellStep(full: int, limit: int, c: int, s: int, tc: int, ts: int, k: nat)
    requires s * limit < full * (c + 1) && ts * limit < full * (tc + k)
    ensures (s + ts) * limit < full * (c + tc + (k + 1))
  {
    Distribute(s, ts, limit);
    Distribute(c + 1, tc + k, full);
  }

  /** Adding one buy fill of collateral c and synthetic s to k earlier ones of totals tc and ts. */
  lemma {:induction false} BuyStep(full: int, limit: int, c: int, s: int, tc: int, ts: int, k: nat)
    requires full >= 1 && limit >= 1 && c >= 0 && s >= 1 && tc >= 0 && ts >= k
    requires c == 0 || (c - 1) * full < limit * s
    requires k == 0 ==> tc == 0 && ts == 0
    requires k > 0 ==> tc == 0 || (tc - k) * full < limit * ts
    ensures c + tc == 0 || (c + tc - (k + 1)) * full < limit * (s + ts)
  {
    assert limit * (s + ts) == limit * s + limit * ts;
    assert (c + tc - (k + 1)) * full == (c - 1) * full + (tc - k) * full;
    PositiveProduct(limit, s);
    NonNegativeProduct(limit, ts);
    if c == 0 { assert (c - 1) * full == -full; }
    if tc == 0 { NonNegativeProduct(k, full); assert (tc - k) * full == -(k * full); }
  }

  /** Over any batch: the fills of one signed message, under any keys and signatures, total at most
      its synthetic amount; k buy fills cost at most the signed collateral plus k - 1; a completely
      filled sell order in k fills brings at least the signed collateral minus k - 1; and the fees
      stay within the signed fee ratio. */
  lemma {:induction false} OrderOwnerIsProtected(s: State, cfg: BatchConfig, txs: seq<Transaction>, o: LimitOrder)
    requires ValidOrders(s.orders) && ExecuteTransactions(s, cfg, txs).Done?
    requires FillsOver(txs, o) != []
    ensures var fs := FillsOver(txs, o);
      && TotalSynthetic(fs) <= o.amountSynthetic - Fulfilled(s.orders, OrderIdOf(cfg, o))
      && TotalFee(fs) * o.amountCollateral <= o.amountFee * TotalCollateral(fs)
      && (o.isBuyingSynthetic ==> TotalCollateral(fs) <= o.amountCollateral + |fs| - 1)
      && (!o.isBuyingSynthetic && TotalSynthetic(fs) == o.amountSynthetic ==>
          TotalCollateral(fs) >= o.amountCollateral - |fs| + 1)
  {
    hide ExecuteTransactions, OrderIdOf;
    RunFills(s, cfg, txs, o);
    var fs := FillsOver(txs, o);
    assert FairFill(o, fs[0]);
    FulfilledIsNatural(s.orders, OrderIdOf(cfg, o));
    FeeSums(o, fs);
    hide ValidOrders, AllFair, TotalCollateral, TotalSynthetic, TotalFee, FillsOver, Fulfilled;
    if o.isBuyingSynthetic {
      BuySums(o, fs);
      BuyBound(o.amountSynthetic, o.amountCollateral, TotalCollateral(fs), TotalSynthetic(fs), |fs|);
    } else {
      SellSums(o, fs);
      SellBound(o.amountSynthetic, o.amountCollateral, TotalCollateral(fs), TotalSynthetic(fs), |fs|);
    }
  }

  lemma {:induction false} BuyBound(full: int, limit: int, c: int, s: int, k: nat)
    requires full >= 1 && limit >= 1 && s <= full && k >= 1
    requires c == 0 || (c - k) * full < limit * s
    ensures c <= limit + k - 1
  {
    ScaleNonNegative(s, full, limit);
    CancelPositive(limit, c - k, full);
  }

  lemma {:induction false} SellBound(full: int, limit: int, c: int, s: int, k: nat)
    requires full >= 1 && s * limit < full * (c + k)
    ensures s == full ==> c >= limit - k + 1
  {
    CancelPositive(c + k, limit, full);
  }

  // ---- Transfers and withdrawals ----

  /** No entry of the order tree decreases. */
  ghost predicate BookKept(a: OrderBook, b: OrderBook) {
    ValidOrders(b) && forall id :: Fulfilled(a, id) <= Fulfilled(b, id)
  }

  /** The order id and the amount of a transfer or withdrawal. */
  function OneTimeId(cfg: BatchConfig, tx: Transaction): int
    requires IsOneTime(tx)
  {
    match tx
    case PlainTransfer(t) => ExtractOrderId(BatchAuthorization.TransferMessage(cfg, t, 0))
    case ConditionalTransfer(t, condition) => ExtractOrderId(BatchAuthorization.TransferMessage(cfg, t, condition))
    case Withdrawal(base, position, amount, ownerKey) =>
      ExtractOrderId(BatchAuthorization.WithdrawalMessage(cfg, base, position, amount, ownerKey))
  }

  predicate IsOneTime(tx: Transaction) {
    tx.PlainTransfer? || tx.ConditionalTransfer? || tx.Withdrawal?
  }

  function OneTimeAmount(tx: Transaction): int
    requires IsOneTime(tx)
  {
    if tx.Withdrawal? then tx.amount else tx.transfer.amount
  }

  /** Transfers and withdrawals of a non-zero amount under one order id. */
  function Spent(cfg: BatchConfig, txs: seq<Transaction>, id: int): nat {
    if txs == [] then
      0
    else
      var counted := IsOneTime(txs[0]) && OneTimeAmount(txs[0]) != 0 && OneTimeId(cfg, txs[0]) == id;
      (if counted then 1 else 0) + Spent(cfg, txs[1..], id)
  }

  lemma {:induction false} UpdateKeepsBook(orders: OrderBook, hash: int, base: OrderBase, minExpiration: int,
                                           amount: felt, full: felt, verify: Verifier)
    requires ValidOrders(orders)
    requires ValidateOrderAndUpdateFulfillment(orders, hash, base, minExpiration, amount, full, verify).Done?
    ensures BookKept(orders,
                     ValidateOrderAndUpdateFulfillment(orders, hash, base, minExpiration, amount, full, verify).value)
  {
    hide ValidateOrderAndUpdateFulfillment, ExtractOrderId, ValidOrders, Fulfilled;
    forall id
      ensures Fulfilled(orders,
                        id) <= Fulfilled(ValidateOrderAndUpdateFulfillment(orders, hash, base, minExpiration, amount,
                                                                           full, verify).value, id)
    {
      BookGrows(orders, hash, base, minExpiration, amount, full, verify, id);
    }
    BookGrows(orders, hash, base, minExpiration, amount, full, verify, 0);
  }

  lemma {:induction false} LimitOrderKeepsBook(s: State, cfg: BatchConfig, o: LimitOrder, collateral: int,
                                               synthetic: felt, fee: int)
    requires ValidOrders(s.orders) && ExecuteLimitOrder(s, cfg, o, collateral, synthetic, fee).Done?
    ensures BookKept(s.orders, ExecuteLimitOrder(s, cfg, o, collateral, synthetic, fee).value.orders)
  {
    hide ExecuteLimitOrder, ValidateOrderAndUpdateFulfillment, LimitOrderHash, BookKept, IsAmount, IsInRange, IsLe,
      ValidateFairness;
    LimitOrderChecks(s, cfg, o, collateral, synthetic, fee);
    UpdateKeepsBook(s.orders, LimitOrderHash(cfg.pedersen, ExchangeFields(o)), o.base, cfg.minExpiration, synthetic,
                    o.amountSynthetic, cfg.verify);
  }

  lemma {:induction false} TradesKeepBook(s: State, cfg: BatchConfig, tx: Transaction)
    requires ValidOrders(s.orders) && (tx.Trade? || tx.Liquidate?) && ExecuteTransaction(s, cfg, tx).Done?
    ensures BookKept(s.orders, ExecuteTransaction(s, cfg, tx).value.orders)
  {
    hide ExecuteLimitOrder, LiquidatePosition, IsAmount, ValidOrders, Fulfilled, FundingIsFresh;
    if tx.Trade? {
      LimitOrderKeepsBook(s, cfg, tx.partyA, tx.actualCollateral, tx.actualSynthetic, tx.actualAFee);
      var s1 := ExecuteLimitOrder(s, cfg, tx.partyA, tx.actualCollateral, tx.actualSynthetic, tx.actualAFee).value;
      LimitOrderKeepsBook(s1, cfg, tx.partyB, tx.actualCollateral, tx.actualSynthetic, tx.actualBFee);
    } else {
      LiquidationKeepsOrders(s, cfg, tx);
      LimitOrderKeepsBook(LiquidatePosition(s, cfg, tx).value, cfg, tx.liquidatorOrder, tx.actualCollateral,
                          tx.actualSynthetic, tx.actualLiquidatorFee);
    }
  }

  /** A transfer or withdrawal enters its amount under its order id, and fits only if that makes no
      more than the amount itself. */
  lemma {:induction false} OneTimeBook(s: State, cfg: BatchConfig, tx: Transaction)
    requires ValidOrders(s.orders) && IsOneTime(tx) && ExecuteTransaction(s, cfg, tx).Done?
    ensures var id, after := OneTimeId(cfg, tx), ExecuteTransaction(s, cfg, tx).value.orders;
      && BookKept(s.orders, after)
      && Fulfilled(s.orders, id) == 0
      && Fulfilled(after, id) == OneTimeAmount(tx)
  {
    hide UpdateOrAbort, ValidateOrderAndUpdateFulfillment, TransferHash, WithdrawalHash, ExtractOrderId, BookKept,
      FundingIsFresh, Fulfilled, ValidOrders;
    var base := if tx.Withdrawal? then tx.base else tx.transfer.base;
    var amount := OneTimeAmount(tx);
    var hash := if tx.Withdrawal?
        then BatchAuthorization.WithdrawalMessage(cfg, base, tx.positionId, tx.amount, tx.ownerKey)
                else BatchAuthorization.TransferMessage(cfg, tx.transfer,
                                                        if tx.PlainTransfer? then 0 else tx.condition);
    UpdateKeepsBook(s.orders, hash, base, cfg.minExpiration, amount, amount, cfg.verify);
    BookGrows(s.orders, hash, base, cfg.minExpiration, amount, amount, cfg.verify, ExtractOrderId(hash));
    FulfilledIsNatural(s.orders, ExtractOrderId(hash));
    var s1 := s.(orders := ValidateOrderAndUpdateFulfillment(s.orders, hash, base, cfg.minExpiration, amount, amount,
                                                             cfg.verify).value);
    var none := NO_SYNTHETIC_DELTA_ASSET_ID;
    if tx.Withdrawal? {
      UpdateKeepsOrders(s1, cfg, tx.positionId, base.publicKey, -amount, none, 0);
    } else {
      var t := tx.transfer;
      UpdateKeepsOrders(s1, cfg, t.senderPositionId, base.publicKey, -amount, none, 0);
      var s2 := UpdateOrAbort(s1, cfg, t.senderPositionId, base.publicKey, -amount, none, 0).value;
      UpdateKeepsOrders(s2, cfg, t.receiverPositionId, t.receiverPublicKey, amount, none, 0);
    }
  }

  lemma {:induction false} StepKeepsBook(s: State, cfg: BatchConfig, tx: Transaction)
    requires ValidOrders(s.orders) && ExecuteTransaction(s, cfg, tx).Done?
    ensures BookKept(s.orders, ExecuteTransaction(s, cfg, tx).value.orders)
  {
    hide ExecuteTransaction, ValidOrders, Fulfilled;
    if tx.Trade? || tx.Liquidate? {
      TradesKeepBook(s, cfg, tx);
    } else if IsOneTime(tx) {
      OneTimeBook(s, cfg, tx);
    } else {
      OthersKeepOrders(s, cfg, tx);
    }
  }

  /** Over any batch, transfers and withdrawals that move something execute at most once under one
      order id, and not at all once its entry is set. */
  lemma {:induction false} SpentOnce(s: State, cfg: BatchConfig, txs: seq<Transaction>, id: int)
    requires ValidOrders(s.orders) && ExecuteTransactions(s, cfg, txs).Done?
    ensures Spent(cfg, txs, id) <= (if Fulfilled(s.orders, id) == 0 then 1 else 0)
    decreases |txs|
  {
    hide ExecuteTransaction, ValidOrders, Fulfilled, OneTimeId;
    FulfilledIsNatural(s.orders, id);
    if txs != [] {
      var s1 := ExecuteTransaction(s, cfg, txs[0]).value;
      StepKeepsBook(s, cfg, txs[0]);
      SpentOnce(s1, cfg, txs[1..], id);
      if IsOneTime(txs[0]) { OneTimeBook(s, cfg, txs[0]); }
    }
  }

  // ---- Repetitions ----

  /** Two states that agree on one position and the market, for an update of that position. */
  lemma {:induction false} UpdatesAgain(s: State, t: State, cfg: BatchConfig, id: int, requestKey: int)
    requires Ready(s, cfg) && UpdateOrAbort(s, cfg, id, requestKey, 0, NO_SYNTHETIC_DELTA_ASSET_ID, 0).Done?
    requires SameMarket(s, t) && |t.positions| == |s.positions|
    requires t.positions[id]
             == UpdateOrAbort(s, cfg, id, requestKey, 0, NO_SYNTHETIC_DELTA_ASSET_ID, 0).value.positions[id]
    ensures UpdateOrAbort(t, cfg, id, requestKey, 0, NO_SYNTHETIC_DELTA_ASSET_ID, 0).Done?
  {
    hide UpdatePosition.Apply;
    IdleAgain(s.positions[id], requestKey, s.funding, s.prices, cfg.general);
  }

  lemma {:induction false} UpdateKeepsRest(s: State, cfg: BatchConfig, id: int, requestKey: int, delta: felt)
    requires Ready(s, cfg) && UpdateOrAbort(s, cfg, id, requestKey, delta, NO_SYNTHETIC_DELTA_ASSET_ID, 0).Done?
    ensures var t := UpdateOrAbort(s, cfg, id, requestKey, delta, NO_SYNTHETIC_DELTA_ASSET_ID, 0).value;
      && t == s.(positions := t.positions) && Ready(t, cfg) && 0 <= id < |s.positions| == |t.positions|
      && forall i :: 0 <= i < |s.positions| && i != id ==> t.positions[i] == s.positions[i]
  {
    hide UpdatePosition.Apply, Moves;
    UpdateOrAbortMoves(s, cfg, id, requestKey, delta, NO_SYNTHETIC_DELTA_ASSET_ID, 0);
  }

  lemma {:induction false} MoveNothingAgain(s: State, t: State, cfg: BatchConfig, transfer: Transfer)
    requires Ready(s, cfg) && transfer.amount == 0 && transfer.senderPositionId != transfer.receiverPositionId
    requires MoveCollateral(s, cfg, transfer).Done? && SameMarket(s, t) && Ready(t, cfg)
    requires t.positions == MoveCollateral(s, cfg, transfer).value.positions
    ensures MoveCollateral(t, cfg, transfer).Done?
  {
    hide UpdateOrAbort, Ready;
    var none := NO_SYNTHETIC_DELTA_ASSET_ID;
    var a, b := transfer.senderPositionId, transfer.receiverPositionId;
    var keyA, keyB := transfer.base.publicKey, transfer.receiverPublicKey;
    UpdateKeepsRest(s, cfg, a, keyA, 0);
    var s1 := UpdateOrAbort(s, cfg, a, keyA, 0, none, 0).value;
    UpdateKeepsRest(s1, cfg, b, keyB, 0);
    UpdatesAgain(s, t, cfg, a, keyA);
    UpdateKeepsRest(t, cfg, a, keyA, 0);
    UpdatesAgain(s1, UpdateOrAbort(t, cfg, a, keyA, 0, none, 0).value, cfg, b, keyB);
  }

  /** An order of amount zero passes again. */
  lemma {:induction false} BookAgain(orders: OrderBook, hash: int, base: OrderBase, minExpiration: int,
                                     verify: Verifier)
    requires ValidOrders(orders)
             && ValidateOrderAndUpdateFulfillment(orders, hash, base, minExpiration, 0, 0, verify).Done?
    ensures var after := ValidateOrderAndUpdateFulfillment(orders, hash, base, minExpiration, 0, 0, verify).value;
      ValidOrders(after) && ValidateOrderAndUpdateFulfillment(after, hash, base, minExpiration, 0, 0, verify).Done?
  {
    BookGrows(orders, hash, base, minExpiration, 0, 0, verify, ExtractOrderId(hash));
    var after := ValidateOrderAndUpdateFulfillment(orders, hash, base, minExpiration, 0, 0, verify).value;
    FulfilledIsNatural(orders, ExtractOrderId(hash));
    FulfillmentExact(after, hash, 0, 0);
    hide UpdateOrderFulfillment, ExtractOrderId, Fulfilled, ValidOrders;
  }

  lemma {:induction false} TransferAgain(s: State, cfg: BatchConfig, t: Transfer, condition: int)
    requires Ready(s, cfg) && ExecuteTransfer(s, cfg, t, condition).Done? && t.amount == 0
    ensures var s1 := ExecuteTransfer(s, cfg, t, condition).value;
      && SameMarket(s, s1)
      && forall outputs :: ExecuteTransfer(s1.(conditions := outputs), cfg, t, condition).Done?
  {
    hide MoveCollateral, ValidateOrderAndUpdateFulfillment, TransferHash, IsAmount, Moves;
    TransferMoves(s, cfg, t, condition);
    var s1 := ExecuteTransfer(s, cfg, t, condition).value;
    var hash := BatchAuthorization.TransferMessage(cfg, t, condition);
    BookAgain(s.orders, hash, t.base, cfg.minExpiration, cfg.verify);
    var orders := ValidateOrderAndUpdateFulfillment(s.orders, hash, t.base, cfg.minExpiration, 0, 0, cfg.verify).value;
    MoveKeepsOrders(s.(orders := orders), cfg, t);
    var after := ValidateOrderAndUpdateFulfillment(orders, hash, t.base, cfg.minExpiration, 0, 0, cfg.verify).value;
    UpdateKeepsBook(orders, hash, t.base, cfg.minExpiration, 0, 0, cfg.verify);
    forall outputs
      ensures ExecuteTransfer(s1.(conditions := outputs), cfg, t, condition).Done?
    {
      MoveNothingAgain(s.(orders := orders), s1.(conditions := outputs).(orders := after), cfg, t);
    }
  }

  lemma {:induction false} MoveKeepsOrders(s: State, cfg: BatchConfig, t: Transfer)
    requires MoveCollateral(s, cfg, t).Done?
    ensures MoveCollateral(s, cfg, t).value.orders == s.orders
  {
    hide UpdateOrAbort;
    var none := NO_SYNTHETIC_DELTA_ASSET_ID;
    UpdateKeepsOrders(s, cfg, t.senderPositionId, t.base.publicKey, -t.amount, none, 0);
    var s1 := UpdateOrAbort(s, cfg, t.senderPositionId, t.base.publicKey, -t.amount, none, 0).value;
    UpdateKeepsOrders(s1, cfg, t.receiverPositionId, t.receiverPublicKey, t.amount, none, 0);
  }

  lemma {:induction false} WithdrawalAgain(s: State, cfg: BatchConfig, tx: Transaction)
    requires tx.Withdrawal? && Ready(s, cfg) && ExecuteWithdrawal(s, cfg, tx).Done? && tx.amount == 0
    ensures var s1 := ExecuteWithdrawal(s, cfg, tx).value;
      SameMarket(s, s1) && ExecuteWithdrawal(s1, cfg, tx).Done?
  {
    hide UpdateOrAbort, ValidateOrderAndUpdateFulfillment, WithdrawalHash, Moves;
    WithdrawalMoves(s, cfg, tx);
    var s1 := ExecuteWithdrawal(s, cfg, tx).value;
    var hash := BatchAuthorization.WithdrawalMessage(cfg, tx.base, tx.positionId, tx.amount, tx.ownerKey);
    BookAgain(s.orders, hash, tx.base, cfg.minExpiration, cfg.verify);
    var orders := ValidateOrderAndUpdateFulfillment(s.orders, hash, tx.base, cfg.minExpiration, 0, 0, cfg.verify).value;
    var before := s.(orders := orders);
    UpdateKeepsRest(before, cfg, tx.positionId, tx.base.publicKey, 0);
    UpdateKeepsOrders(before, cfg, tx.positionId, tx.base.publicKey, 0, NO_SYNTHETIC_DELTA_ASSET_ID, 0);
    var after := ValidateOrderAndUpdateFulfillment(s1.orders, hash, tx.base, cfg.minExpiration, 0, 0, cfg.verify).value;
    UpdatesAgain(before, s1.(orders := after), cfg, tx.positionId, tx.base.publicKey);
  }

  /** Right after an accepted transfer or withdrawal the same one is accepted again exactly when its
      amount is zero; its condition or modification record is then written again. */
  lemma {:induction false} OneTimeRepeats(s: State, cfg: BatchConfig, tx: Transaction)
    requires Ready(s, cfg) && IsOneTime(tx) && ExecuteTransaction(s, cfg, tx).Done?
    ensures var s1 := ExecuteTransaction(s, cfg, tx).value;
      var r := ExecuteTransaction(s1, cfg, tx);
      && (r.Done? <==> OneTimeAmount(tx) == 0)
      && (r.Done? ==>
            && r.value.modifications == s.modifications + BatchJournal.ModificationsOf(tx)
               + BatchJournal.ModificationsOf(tx)
            && r.value.conditions == s.conditions + BatchJournal.ConditionsOf(tx) + BatchJournal.ConditionsOf(tx))
  {
    hide ExecuteTransaction, Ready;
    var s1 := ExecuteTransaction(s, cfg, tx).value;
    if OneTimeAmount(tx) == 0 { OneTimeAgain(s, cfg, tx); }
    BatchJournal.TransactionWrites(s, cfg, tx);
    if ExecuteTransaction(s1, cfg, tx).Done? {
      BatchJournal.TransactionWrites(s1, cfg, tx);
      ReadyOrders(s, cfg);
      RepeatedIsEmpty(s, s1, cfg, tx);
    }
  }

  lemma {:induction false} OneTimeAgain(s: State, cfg: BatchConfig, tx: Transaction)
    requires Ready(s, cfg) && IsOneTime(tx) && ExecuteTransaction(s, cfg, tx).Done? && OneTimeAmount(tx) == 0
    ensures ExecuteTransaction(ExecuteTransaction(s, cfg, tx).value, cfg, tx).Done?
  {
    hide ExecuteTransfer, ExecuteWithdrawal, Ready;
    if tx.Withdrawal? {
      WithdrawalAgain(s, cfg, tx);
    } else {
      TransferAgain(s, cfg, tx.transfer, if tx.PlainTransfer? then 0 else tx.condition);
    }
  }

  lemma {:induction false} ReadyOrders(s: State, cfg: BatchConfig)
    requires Ready(s, cfg)
    ensures ValidOrders(s.orders)
  {
  }

  lemma {:induction false} RepeatedIsEmpty(s: State, s1: State, cfg: BatchConfig, tx: Transaction)
    requires ValidOrders(s.orders) && IsOneTime(tx) && ExecuteTransaction(s, cfg, tx) == Done(s1)
    requires ExecuteTransaction(s1, cfg, tx).Done?
    ensures OneTimeAmount(tx) == 0
  {
    hide ExecuteTransaction, OneTimeId, Fulfilled;
    OneTimeBook(s, cfg, tx);
    KeptIsValid(s.orders, s1.orders);
    OneTimeBook(s1, cfg, tx);
  }

  lemma {:induction false} KeptIsValid(a: OrderBook, b: OrderBook)
    requires BookKept(a, b)
    ensures ValidOrders(b)
  {
  }
}
