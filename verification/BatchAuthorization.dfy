/** Who may touch a position of the perpetual batch: over any batch a position only gains, unless its
    owner signed for it, an on-chain request names it, or it is liquidated or deleveraged. */
module BatchAuthorization {
  import opened Felt
  import opened PerpetualTypes
  import opened Funding
  import opened UpdatePosition
  import opened MessageHashes
  import opened Orders
  import opened Totals
  import opened Batch
  import opened BatchInvariants
  import opened BatchRuns
  import opened BatchJournal

  // ---- What counts as permission ----

  /** A request acts for the owner of a position when it names the owner's key, or no key at all:
      update_position then takes the key of the position. */
  predicate ActsFor(requestKey: int, owner: int) {
    requestKey == owner || requestKey == 0
  }

  /** Exactly these request keys move the position of an owner: key 0 does what the owner's key does,
      and every other key is refused. */
  lemma {:induction false} RequestKeyExact(p: Position, requestKey: int, collateralDelta: int, assetId: int,
                                           syntheticDelta: int, funding: FundingInfo, prices: seq<OraclePrice>,
                                           config: GeneralConfig)
    requires p.publicKey != 0
    ensures var u := UpdatePosition.Apply(p, requestKey, collateralDelta, assetId, syntheticDelta, funding, prices,
                                          config);
      && (ActsFor(requestKey, p.publicKey) ==>
            u == UpdatePosition.Apply(p, p.publicKey, collateralDelta, assetId, syntheticDelta, funding, prices,
                                      config))
      && (!ActsFor(requestKey, p.publicKey) && u.Done? ==> u.value.code != Success && u.value.updated == u.value.funded)
  {
    hide ApplyFunding, ChangeFunded, IsAssetIdTradable;
  }

  /** A verified signature on the message under a key that acts for the owner. */
  predicate SignedFor(cfg: BatchConfig, hash: int, base: OrderBase, owner: int) {
    ActsFor(base.publicKey, owner) && cfg.verify(hash, base.publicKey, base.signatureR, base.signatureS)
  }

  function TransferMessage(cfg: BatchConfig, t: Transfer, condition: int): int {
    var fields := TransferFields(t.assetId, 0, t.receiverPublicKey, t.senderPositionId, t.receiverPositionId,
                                 t.senderPositionId, t.amount, 0, t.base.nonce, t.base.expirationTimestamp);
    TransferHash(cfg.pedersen, fields, condition)
  }

  function WithdrawalMessage(cfg: BatchConfig, base: OrderBase, positionId: int, amount: int, ownerKey: int): int {
    WithdrawalHash(cfg.pedersen, WithdrawalFields(positionId, ownerKey, amount, base.nonce, base.expirationTimestamp),
                   base.publicKey, cfg.general.collateralAssetId)
  }

  predicate OrderAuthorises(cfg: BatchConfig, o: LimitOrder, i: int, owner: int) {
    o.positionId == i && SignedFor(cfg, LimitOrderHash(cfg.pedersen, ExchangeFields(o)), o.base, owner)
  }

  predicate TransferAuthorises(cfg: BatchConfig, t: Transfer, condition: int, i: int, owner: int) {
    t.senderPositionId == i && SignedFor(cfg, TransferMessage(cfg, t, condition), t.base, owner)
  }

  /** The transaction may take from position i of the given owner. */
  predicate Authorises(cfg: BatchConfig, tx: Transaction, i: int, owner: int) {
    match tx
    case Deposit(_, _, _) => false
    case Withdrawal(base, position, amount, ownerKey) =>
      position == i && SignedFor(cfg, WithdrawalMessage(cfg, base, position, amount, ownerKey), base, owner)
    case ForcedWithdrawal(key, position, _, isValid) => isValid && position == i && ActsFor(key, owner)
    case PlainTransfer(t) => TransferAuthorises(cfg, t, 0, i, owner)
    case ConditionalTransfer(t, condition) => TransferAuthorises(cfg, t, condition, i, owner)
    case Trade(a, b, _, _, _, _) => OrderAuthorises(cfg, a, i, owner) || OrderAuthorises(cfg, b, i, owner)
    case ForcedTrade(keyA, keyB, a, b, _, _, _, _, isValid) =>
      isValid && ((a == i && ActsFor(keyA, owner)) || (b == i && ActsFor(keyB, owner)))
    case Liquidate(o, position, _, _, _) => position == i || OrderAuthorises(cfg, o, i, owner)
    case Deleverage(deleveragable, deleverager, _, _, _, _) => deleveragable == i || deleverager == i
    case FundingTick(_, _, _) => false
    case OraclePricesTick(_, _) => false
  }

  // ---- One transaction ----

  lemma {:induction false} OrderIsVerified(orders: OrderBook, hash: int, base: OrderBase, minExpiration: int,
                                           amount: int, full: int, verify: Verifier)
    requires ValidateOrderAndUpdateFulfillment(orders, hash, base, minExpiration, amount, full, verify).Done?
    ensures verify(hash, base.publicKey, base.signatureR, base.signatureS)
  {
  }

  lemma {:induction false} LimitOrderIsVerified(s: State, cfg: BatchConfig, o: LimitOrder, collateral: int,
                                                synthetic: int, fee: int)
    requires ExecuteLimitOrder(s, cfg, o, collateral, synthetic, fee).Done?
    ensures cfg.verify(LimitOrderHash(cfg.pedersen, ExchangeFields(o)), o.base.publicKey, o.base.signatureR,
                       o.base.signatureS)
  {
    hide FillOrder, ValidateFairness, LimitOrderHash, IsAmount, IsInRange, IsLe;
  }

  lemma {:induction false} AmountIsNatural(a: felt)
    ensures IsAmount(a) ==> 0 <= a
  {
  }

  lemma {:induction false} TransferIsVerified(s: State, cfg: BatchConfig, t: Transfer, condition: int)
    requires ExecuteTransfer(s, cfg, t, condition).Done?
    ensures cfg.verify(TransferMessage(cfg, t, condition), t.base.publicKey, t.base.signatureR, t.base.signatureS)
            && 0 <= t.amount
  {
    hide MoveCollateral, ValidateOrderAndUpdateFulfillment, TransferHash;
    OrderIsVerified(s.orders, TransferMessage(cfg, t, condition), t.base, cfg.minExpiration, t.amount, t.amount,
                    cfg.verify);
  }

  lemma {:induction false} WithdrawalIsVerified(s: State, cfg: BatchConfig, tx: Transaction)
    requires tx.Withdrawal? && ExecuteWithdrawal(s, cfg, tx).Done?
    ensures cfg.verify(WithdrawalMessage(cfg, tx.base, tx.positionId, tx.amount, tx.ownerKey), tx.base.publicKey,
                       tx.base.signatureR, tx.base.signatureS)
  {
    hide UpdateOrAbort, ValidateOrderAndUpdateFulfillment, WithdrawalHash;
    OrderIsVerified(s.orders, WithdrawalMessage(cfg, tx.base, tx.positionId, tx.amount, tx.ownerKey), tx.base,
                    cfg.minExpiration, tx.amount, tx.amount, cfg.verify);
  }

  /** Only the order's own position can be debited; the fee position gains. */
  lemma {:induction false} OrderDebits(cfg: BatchConfig, o: LimitOrder, collateral: int, synthetic: int, fee: felt,
                                       i: int)
    requires IsAmount(fee) && Debits(OrderEntries(cfg, o, collateral, synthetic, fee), i)
    ensures o.positionId == i
  {
    AmountIsNatural(fee);
    var a := Entry(cfg.general.feePositionId, fee, 0);
    var b := Entry(o.positionId, (if o.isBuyingSynthetic then -collateral else collateral) - fee,
                   if o.isBuyingSynthetic then synthetic else -synthetic);
    EntriesConcat([a], [b], i);
    SingleEntry(a, i);
    SingleEntry(b, i);
  }

  lemma {:induction false} TradeDebits(s: State, cfg: BatchConfig, tx: Transaction, i: nat)
    requires tx.Trade? && i < |s.positions| && ExecuteTrade(s, cfg, tx).Done?
    requires AllMayUpdate(s.positions, Requests(tx)) && s.positions[i].publicKey != 0 && Debits(Entries(cfg, tx), i)
    ensures Authorises(cfg, tx, i, s.positions[i].publicKey)
  {
    hide ExecuteLimitOrder, OrderEntries, LimitOrderHash, IsAmount;
    LimitOrderIsVerified(s, cfg, tx.partyA, tx.actualCollateral, tx.actualSynthetic, tx.actualAFee);
    var s1 := ExecuteLimitOrder(s, cfg, tx.partyA, tx.actualCollateral, tx.actualSynthetic, tx.actualAFee).value;
    LimitOrderIsVerified(s1, cfg, tx.partyB, tx.actualCollateral, tx.actualSynthetic, tx.actualBFee);
    var a := OrderEntries(cfg, tx.partyA, tx.actualCollateral, tx.actualSynthetic, tx.actualAFee);
    var b := OrderEntries(cfg, tx.partyB, tx.actualCollateral, tx.actualSynthetic, tx.actualBFee);
    EntriesConcat(a, b, i);
    if Debits(a, i) { OrderDebits(cfg, tx.partyA, tx.actualCollateral, tx.actualSynthetic, tx.actualAFee, i); }
    if Debits(b, i) { OrderDebits(cfg, tx.partyB, tx.actualCollateral, tx.actualSynthetic, tx.actualBFee, i); }
    assert MayUpdate(s.positions[Requests(tx)[0].0], Requests(tx)[0].1)
           && MayUpdate(s.positions[Requests(tx)[1].0], Requests(tx)[1].1);
  }

  lemma {:induction false} LiquidateDebits(s: State, cfg: BatchConfig, tx: Transaction, i: nat)
    requires tx.Liquidate? && i < |s.positions| && ExecuteLiquidate(s, cfg, tx).Done?
    requires AllMayUpdate(s.positions, Requests(tx)) && s.positions[i].publicKey != 0 && Debits(Entries(cfg, tx), i)
    ensures Authorises(cfg, tx, i, s.positions[i].publicKey)
  {
    hide ExecuteLimitOrder, LiquidatePosition, OrderEntries, LimitOrderHash, IsAmount;
    var o := tx.liquidatorOrder;
    var s1 := LiquidatePosition(s, cfg, tx).value;
    LimitOrderIsVerified(s1, cfg, o, tx.actualCollateral, tx.actualSynthetic, tx.actualLiquidatorFee);
    var e := Entry(tx.liquidatedPositionId, if o.isBuyingSynthetic then tx.actualCollateral else -tx.actualCollateral,
                   if o.isBuyingSynthetic then -tx.actualSynthetic else tx.actualSynthetic);
    var fs := OrderEntries(cfg, o, tx.actualCollateral, tx.actualSynthetic, tx.actualLiquidatorFee);
    EntriesConcat([e], fs, i);
    SingleEntry(e, i);
    if Debits(fs, i) { OrderDebits(cfg, o, tx.actualCollateral, tx.actualSynthetic, tx.actualLiquidatorFee, i); }
    assert MayUpdate(s.positions[Requests(tx)[0].0], Requests(tx)[0].1);
  }

  lemma {:induction false} TransferDebits(s: State, cfg: BatchConfig, t: Transfer, condition: int, i: nat)
    requires i < |s.positions| && ExecuteTransfer(s, cfg, t, condition).Done?
    requires 0 <= t.senderPositionId < |s.positions| && MayUpdate(s.positions[t.senderPositionId], t.base.publicKey)
    requires s.positions[i].publicKey != 0 && Debits(TransferEntries(t), i)
    ensures TransferAuthorises(cfg, t, condition, i, s.positions[i].publicKey)
  {
    hide ExecuteTransfer, TransferMessage;
    TransferIsVerified(s, cfg, t, condition);
    var a, b := Entry(t.senderPositionId, -t.amount, 0), Entry(t.receiverPositionId, t.amount, 0);
    EntriesConcat([a], [b], i);
    SingleEntry(a, i);
    SingleEntry(b, i);
  }

  lemma {:induction false} PairDebits(a: Entry, b: Entry, i: int)
    requires Debits([a] + [b], i)
    ensures a.position == i || b.position == i
  {
    EntriesConcat([a], [b], i);
    SingleEntry(a, i);
    SingleEntry(b, i);
  }

  lemma {:induction false} CollateralDebits(s: State, cfg: BatchConfig, tx: Transaction, i: nat)
    requires tx.Deposit? || tx.Withdrawal? || tx.ForcedWithdrawal?
    requires i < |s.positions| && ExecuteTransaction(s, cfg, tx).Done?
    requires AllMayUpdate(s.positions, Requests(tx)) && s.positions[i].publicKey != 0 && Debits(Entries(cfg, tx), i)
    ensures Authorises(cfg, tx, i, s.positions[i].publicKey)
  {
    hide UpdateOrAbort, UpdateInDict, ExecuteWithdrawal, WithdrawalMessage, FundingIsFresh;
    SingleEntry(Entries(cfg, tx)[0], i);
    assert Entries(cfg, tx) == [Entries(cfg, tx)[0]];
    if tx.Withdrawal? { WithdrawalIsVerified(s, cfg, tx); }
    if !tx.ForcedWithdrawal? || tx.isValid { assert MayUpdate(s.positions[Requests(tx)[0].0], Requests(tx)[0].1); }
  }

  /** Every debit that an accepted transaction books is one that it authorises. */
  lemma {:induction false} DebitsAuthorised(s: State, cfg: BatchConfig, tx: Transaction, i: nat)
    requires i < |s.positions| && ExecuteTransaction(s, cfg, tx).Done?
    requires AllMayUpdate(s.positions, Requests(tx)) && s.positions[i].publicKey != 0 && Debits(Entries(cfg, tx), i)
    ensures Authorises(cfg, tx, i, s.positions[i].publicKey)
  {
    hide ExecuteTransfer, ExecuteTrade, ExecuteForcedTrade, ExecuteLiquidate, ExecuteDeleverage, ExecuteDeposit,
      ExecuteWithdrawal, ExecuteForcedWithdrawal, ExecuteFundingTick, ExecuteOraclePricesTick, OrderEntries,
      TransferEntries, TransferAuthorises, OrderAuthorises, WithdrawalMessage, FundingIsFresh;
    if tx.Deposit? || tx.Withdrawal? || tx.ForcedWithdrawal? {
      CollateralDebits(s, cfg, tx, i);
    } else if tx.PlainTransfer? || tx.ConditionalTransfer? {
      assert MayUpdate(s.positions[Requests(tx)[0].0], Requests(tx)[0].1);
      TransferDebits(s, cfg, tx.transfer, if tx.PlainTransfer? then 0 else tx.condition, i);
    } else if tx.Trade? {
      TradeDebits(s, cfg, tx, i);
    } else if tx.Liquidate? {
      LiquidateDebits(s, cfg, tx, i);
    } else if tx.ForcedTrade? {
      var es := ForcedTradeEntries(tx);
      PairDebits(es[0], es[1], i);
      EntriesConcat([es[0]], [es[1]], i);
      SingleEntry(es[0], i);
      SingleEntry(es[1], i);
      assert MayUpdate(s.positions[Requests(tx)[0].0], Requests(tx)[0].1)
             && MayUpdate(s.positions[Requests(tx)[1].0], Requests(tx)[1].1);
    } else if tx.Deleverage? {
      PairDebits(Entries(cfg, tx)[0], Entries(cfg, tx)[1], i);
    }
  }

  // ---- Equity under any indices ----

  function Negated(a: seq<PositionAsset>): seq<PositionAsset> {
    if a == [] then [] else [a[0].(balance := -a[0].balance)] + Negated(a[1..])
  }

  lemma {:induction false} NegatedSums(a: seq<PositionAsset>, indices: seq<FundingIndex>, x: int)
    ensures Deferred(Negated(a), indices) == -Deferred(a, indices)
    ensures Holding(Negated(a), x) == -Holding(a, x)
  {
    if a != [] {
      NegatedSums(a[1..], indices, x);
      var w := IndexOr0(indices, a[0].assetId) - a[0].cachedFundingIndex;
      assert w * -a[0].balance == -(w * a[0].balance);
      assert Negated(a)[1..] == Negated(a[1..]);
    }
  }

  /** Two positions with the same holdings keep their difference in equity when the indices move. */
  lemma {:induction false} EquityGapFixed(p: Position, q: Position, from: seq<FundingIndex>, to: seq<FundingIndex>)
    requires forall x :: Holding(p.assets, x) == Holding(q.assets, x)
    ensures Equity(q, to) - Equity(p, to) == Equity(q, from) - Equity(p, from)
  {
    var all := p.assets + Negated(q.assets);
    forall x
      ensures Holding(all, x) == 0
    {
      HoldingConcat(p.assets, Negated(q.assets), x);
      NegatedSums(q.assets, from, x);
    }
    NettedDeferred(all, from, to);
    DeferredConcat(p.assets, Negated(q.assets), from);
    DeferredConcat(p.assets, Negated(q.assets), to);
    NegatedSums(q.assets, from, 0);
    NegatedSums(q.assets, to, 0);
  }

  // ---- A position that nobody may touch ----

  /** Nothing was taken: the same owner and the same holdings, and under any funding indices no less
      equity, up to one rounding per transaction. */
  ghost predicate Spared(p: Position, q: Position, n: nat) {
    && q.publicKey == p.publicKey
    && (forall x :: Holding(q.assets, x) == Holding(p.assets, x))
    && forall indices: seq<FundingIndex> :: Equity(p, indices) - n * (FXP_32_ONE - 1) <= Equity(q, indices)
  }

  lemma {:induction false} SparedInTurn(p: Position, q: Position, r: Position, n: nat, m: nat)
    requires Spared(p, q, n) && Spared(q, r, m)
    ensures Spared(p, r, n + m)
  {
    hide Equity;
    forall indices: seq<FundingIndex>
      ensures Equity(p, indices) - (n + m) * (FXP_32_ONE - 1) <= Equity(r, indices)
    {
      assert Equity(p, indices) - n * (FXP_32_ONE - 1) <= Equity(q, indices);
    }
  }

  lemma {:induction false} CreditSpares(p: Position, q: Position, funding: FundingInfo, collateral: int, id: int)
    requires ValidPosition(p) && ValidIndices(funding.indices) && q.publicKey == p.publicKey
    requires Credited(p, q, funding, collateral, id, 0) && 0 <= collateral
    ensures Spared(p, q, 1)
  {
    hide ApplyFunding;
    FundingRoundsDown(p, funding);
    UpToDateOwesNothing(q.assets, funding.indices);
    forall indices: seq<FundingIndex>
      ensures Equity(p, indices) - (FXP_32_ONE - 1) <= Equity(q, indices)
    {
      EquityGapFixed(p, q, funding.indices, indices);
    }
  }

  lemma {:induction false} StepSpares(s: State, cfg: BatchConfig, tx: Transaction, i: nat)
    requires Ready(s, cfg) && ExecuteTransaction(s, cfg, tx).Done?
    requires i < |s.positions| && s.positions[i].publicKey != 0 && !Authorises(cfg, tx, i, s.positions[i].publicKey)
    ensures var ps := ExecuteTransaction(s, cfg, tx).value.positions;
      i < |ps| && Spared(s.positions[i], ps[i], 1)
  {
    hide ExecuteTransaction, Entries, Requests, Authorises, Credited, Spared;
    TransactionBooked(s, cfg, tx);
    var es, ps := Entries(cfg, tx), ExecuteTransaction(s, cfg, tx).value.positions;
    if Debits(es, i) { DebitsAuthorised(s, cfg, tx, i); }
    assert ValidPosition(s.positions[i]);
    if Touches(es, i) {
      NoDebitSums(es, i);
      CreditSpares(s.positions[i], ps[i], s.funding, CollateralOf(es, i), AssetOf(tx));
    } else {
      SameIsSpared(ps[i]);
    }
  }

  lemma {:induction false} SameIsSpared(p: Position)
    ensures Spared(p, p, 0) && Spared(p, p, 1)
  {
    hide Equity;
  }

  predicate SomeAuthorises(cfg: BatchConfig, txs: seq<Transaction>, i: int, owner: int) {
    exists k :: 0 <= k < |txs| && Authorises(cfg, txs[k], i, owner)
  }

  /** Over any batch: a position with an owner keeps its owner, every synthetic balance and its equity,
      up to one rounding per transaction, unless some transaction carries a verified signature that
      acts for the owner on that position, carries out an on-chain request on it, or liquidates or
      deleverages it. */
  lemma {:induction false} PositionIsGuarded(s: State, cfg: BatchConfig, txs: seq<Transaction>, i: nat)
    requires Ready(s, cfg) && ExecuteTransactions(s, cfg, txs).Done?
    requires i < |s.positions| && s.positions[i].publicKey != 0
    ensures var ps := ExecuteTransactions(s, cfg, txs).value.positions;
      i < |ps| && (SomeAuthorises(cfg, txs, i, s.positions[i].publicKey) || Spared(s.positions[i], ps[i], |txs|))
    decreases |txs|
  {
    hide ExecuteTransaction, Authorises, Accounts, Spared;
    if txs == [] {
      SameIsSpared(s.positions[i]);
    } else {
      var s1 := ExecuteTransaction(s, cfg, txs[0]).value;
      var owner := s.positions[i].publicKey;
      StepAccounts(s, cfg, txs[0]);
      AccountsReady(s, s1, cfg, Applications(txs[0]));
      if !Authorises(cfg, txs[0], i, owner) {
        StepSpares(s, cfg, txs[0], i);
        SparedOwner(s.positions[i], s1.positions[i], 1);
        PositionIsGuarded(s1, cfg, txs[1..], i);
        if SomeAuthorises(cfg, txs[1..], i, owner) {
          var k :| 0 <= k < |txs[1..]| && Authorises(cfg, txs[1..][k], i, owner);
          assert txs[k + 1] == txs[1..][k];
        } else {
          SparedInTurn(s.positions[i], s1.positions[i], ExecuteTransactions(s1, cfg, txs[1..]).value.positions[i], 1,
                       |txs| - 1);
        }
      } else {
        RunAccounts(s1, cfg, txs[1..]);
        AccountsReady(s1, ExecuteTransactions(s1, cfg, txs[1..]).value, cfg, AllApplications(txs[1..]));
      }
    }
  }

  lemma {:induction false} SparedOwner(p: Position, q: Position, n: nat)
    requires Spared(p, q, n)
    ensures q.publicKey == p.publicKey
  {
  }

  lemma {:induction false} AccountsReady(s: State, t: State, cfg: BatchConfig, n: nat)
    requires ValidConfig(cfg) && Accounts(s, t, n)
    ensures Ready(t, cfg) && |t.positions| == |s.positions|
  {
  }
}
