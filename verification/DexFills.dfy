/** What the order dictionary of the spot exchange guarantees over a whole batch: a signed order is
    never oversold and never filled below its price, and a token is minted at most once. */
module DexFills {
  import opened Felt
  import opened Options
  import opened Arithmetic
  import opened MessageHashes
  import opened Dex
  import opened DexMessages
  import opened DexConservation

  datatype Fill = Fill(sold: int, bought: int, fee: int)

  function FeeOf(fee: Option<FeeInfo>): int {
    match fee
    case None => 0
    case Some(f) => f.feeTaken
  }

  /** The two orders are one signed message: all hashed fields agree. The key that signs and the
      signature are not part of the message, nor are the fee fields of an order without a fee. */
  predicate SameMessage(a: ExchangeOrder, b: ExchangeOrder, withFee: bool) {
    if withFee then FieldsOf(a) == FieldsOf(b) else OrderMessage31(a) == OrderMessage31(b)
  }

  /** A party fills the message of `o`, under whatever key and signature. */
  predicate Matches(p: Party, o: ExchangeOrder, withFee: bool) {
    p.fee.Some? == withFee && SameMessage(p.order, o, withFee)
  }

  function FillsOf(p: Party, sold: int, bought: int, o: ExchangeOrder, withFee: bool): seq<Fill> {
    if Matches(p, o, withFee) then [Fill(sold, bought, FeeOf(p.fee))] else []
  }

  /** The fills of a signed message that a transaction makes. */
  function FillsIn(tx: Transaction, o: ExchangeOrder, withFee: bool): seq<Fill> {
    if tx.Settlement? then
      FillsOf(tx.partyA, tx.partyASold, tx.partyBSold, o, withFee)
          + FillsOf(tx.partyB, tx.partyBSold, tx.partyASold, o, withFee)
    else []
  }

  function FillsOver(txs: seq<Transaction>, o: ExchangeOrder, withFee: bool): seq<Fill> {
    if txs == [] then [] else FillsIn(txs[0], o, withFee) + FillsOver(txs[1..], o, withFee)
  }

  function TotalSold(fs: seq<Fill>): int {
    if fs == [] then 0 else fs[0].sold + TotalSold(fs[1..])
  }

  function TotalBought(fs: seq<Fill>): int {
    if fs == [] then 0 else fs[0].bought + TotalBought(fs[1..])
  }

  function TotalFee(fs: seq<Fill>): int {
    if fs == [] then 0 else fs[0].fee + TotalFee(fs[1..])
  }

  lemma {:induction false} TotalSoldConcat(a: seq<Fill>, b: seq<Fill>)
    ensures TotalSold(a + b) == TotalSold(a) + TotalSold(b)
  {
    if a == [] {
      assert a + b == b;
    } else {
      assert (a + b)[1..] == a[1..] + b;
      TotalSoldConcat(a[1..], b);
    }
  }

  /** One fill at or above the signed price, with the fee in the signed ratio. Without a fee object
      nothing is taken. */
  predicate FairFill(o: ExchangeOrder, withFee: bool, f: Fill) {
    && 0 <= f.sold && 0 <= f.bought
    && f.sold * o.amountBuy <= o.amountSell * f.bought
    && (if withFee then 0 <= f.fee * o.amountBuy <= o.amountFee * f.bought else f.fee == 0)
  }

  predicate AllFair(o: ExchangeOrder, withFee: bool, fs: seq<Fill>) {
    forall i :: 0 <= i < |fs| ==> FairFill(o, withFee, fs[i])
  }

  predicate ValidOrders(orders: map<int, int>) {
    forall id :: id in orders ==> 0 <= orders[id]
  }

  /** No entry of the order dictionary ever decreases. */
  ghost predicate Grows(before: map<int, int>, after: map<int, int>) {
    ValidOrders(after) && forall id :: FulfilledAt(before, id) <= FulfilledAt(after, id)
  }

  /** Between two order dictionaries the order made the fills `fs`. */
  ghost predicate Filled(before: map<int, int>, after: map<int, int>, id: int, o: ExchangeOrder, withFee: bool,
                         fs: seq<Fill>)
  {
    && Grows(before, after)
    && AllFair(o, withFee, fs)
    && FulfilledAt(before, id) + TotalSold(fs) <= FulfilledAt(after, id)
    && (fs != [] ==> FulfilledAt(before, id) + TotalSold(fs) <= o.amountSell)
  }

  lemma {:induction false} FilledCompose(a: map<int, int>, b: map<int, int>, c: map<int, int>, id: int,
                                         o: ExchangeOrder, withFee: bool, fs: seq<Fill>, gs: seq<Fill>)
    requires Filled(a, b, id, o, withFee, fs) && Filled(b, c, id, o, withFee, gs)
    ensures Filled(a, c, id, o, withFee, fs + gs)
  {
    TotalSoldConcat(fs, gs);
    if gs == [] { assert fs + gs == fs; }
  }

  lemma {:induction false} NothingFilled(a: map<int, int>, b: map<int, int>, id: int, o: ExchangeOrder, withFee: bool)
    requires Grows(a, b)
    ensures Filled(a, b, id, o, withFee, [])
  {
  }

  lemma {:induction false} FilledIsValid(a: map<int, int>, b: map<int, int>, id: int, o: ExchangeOrder, withFee: bool,
                                         fs: seq<Fill>)
    requires Filled(a, b, id, o, withFee, fs)
    ensures ValidOrders(b)
  {
  }

  /** One message has one hash, one set of fair fills and one amount. */
  lemma {:induction false} MessageAgrees(h: PairHash, a: ExchangeOrder, b: ExchangeOrder, withFee: bool, f: Fill)
    requires SameMessage(a, b, withFee)
    ensures GetOrderHash(h, a, withFee) == GetOrderHash(h, b, withFee)
    ensures FairFill(a, withFee, f) <==> FairFill(b, withFee, f)
    ensures a.amountSell == b.amountSell
  {
    if !withFee {
      OrderHashIs31(h, a);
      OrderHashIs31(h, b);
    }
    hide Hash31, LimitOrderHash;
  }

  /** The fills counted for an order are exactly those that the order dictionary enters under its
      hash, if the pair hash has no collisions. */
  lemma {:induction false} MatchesIsSameHash(h: PairHash, p: Party, o: ExchangeOrder, withFee: bool)
    requires Injective(h) && OrderFits(p.order, p.fee.Some?) && OrderFits(o, withFee)
    ensures Matches(p, o, withFee) <==> GetOrderHash(h, p.order, p.fee.Some?) == GetOrderHash(h, o, withFee)
  {
    hide Valid31, ValidLimitFields, LimitOrderHash, HashOf;
    var someTransfer := TransferFields(0, 0, 0, 0, 0, 0, 0, 0, 0, 0);
    assert ValidTransferFields(someTransfer);
    OrderHashIs31(h, p.order);
    OrderHashIs31(h, o);
    if p.fee.Some? && withFee {
      if LimitOrderHash(h, FieldsOf(p.order)) == LimitOrderHash(h, FieldsOf(o)) {
        LimitOrderHashCommits(h, FieldsOf(p.order), FieldsOf(o));
      }
    } else if p.fee.Some? {
      FormatsApart(h, OrderMessage31(o), FieldsOf(p.order), someTransfer, 0);
    } else if withFee {
      FormatsApart(h, OrderMessage31(p.order), FieldsOf(o), someTransfer, 0);
    } else {
      Hash31Commits(h, OrderMessage31(p.order), OrderMessage31(o));
    }
  }

  // ---- One limit order ----

  lemma {:induction false} BalanceProduct(x: int, y: int)
    requires 0 <= x < BALANCE_BOUND && 0 <= y < BALANCE_BOUND
    ensures 0 <= x * y < RC_BOUND
  {
    ProductBound(x, y, BALANCE_BOUND, BALANCE_BOUND);
    NonNegativeProduct(x, y);
  }

  /** The range checks of a limit order accept exactly the fills at the signed price or better, of
      orders whose fields are in range and that have not expired. */
  lemma {:induction false} ChecksDecide(o: ExchangeOrder, globalExpiration: felt, sold: int, bought: int)
    requires 0 <= sold < BALANCE_BOUND && 0 <= bought < BALANCE_BOUND
    ensures LimitOrderChecks(o, globalExpiration, sold, bought) <==>
            && 0 <= o.amountSell < BALANCE_BOUND && 0 <= o.amountBuy < BALANCE_BOUND
            && 0 <= o.base.nonce < DEX_NONCE_BOUND
            && 0 <= o.base.expirationTimestamp - globalExpiration < RC_BOUND
            && o.base.expirationTimestamp < DEX_EXPIRATION_BOUND
            && DEX_EXPIRATION_BOUND - RC_BOUND <= o.base.expirationTimestamp
            && sold * o.amountBuy <= o.amountSell * bought
  {
    hide Times;
    if 0 <= o.amountSell < BALANCE_BOUND && 0 <= o.amountBuy < BALANCE_BOUND {
      TimesIsProduct(o.amountSell, bought);
      TimesIsProduct(sold, o.amountBuy);
      BalanceProduct(o.amountSell, bought);
      BalanceProduct(sold, o.amountBuy);
    }
  }

  lemma {:induction false} FulfillSellExact(orders: map<int, int>, orderId: int, sold: felt, amountSell: felt)
    requires ValidOrders(orders) && 0 <= sold < BALANCE_BOUND && 0 <= amountSell < BALANCE_BOUND
    requires FulfillSell(orders, orderId, sold, amountSell).Done?
    requires FulfilledAt(orders, orderId) < BALANCE_BOUND
    ensures var r := FulfillSell(orders, orderId, sold, amountSell).value;
      && Grows(orders, r)
      && FulfilledAt(r, orderId) == FulfilledAt(orders, orderId) + sold <= amountSell
  {
  }

  /** What an accepted limit order checked. */
  lemma {:induction false} LimitOrderParts(s: Ledger, ctx: Context, p: Party, sold: int, bought: int)
    requires ExecuteLimitOrder(s, ctx, p, sold, bought).Done?
    ensures LimitOrderChecks(p.order, ctx.globalExpiration, sold, bought)
    ensures var book := FulfillSell(s.orders, GetOrderHash(ctx.pedersen, p.order, p.fee.Some?), sold,
                                    p.order.amountSell);
      book.Done? && ExecuteLimitOrder(s, ctx, p, sold, bought).value.orders == book.value
    ensures p.fee.Some? ==> OrderFeeOk(p.fee.value.feeTaken, p.order.amountFee, bought, p.order.amountBuy)
  {
    hide LimitOrderChecks, GetOrderHash, FulfillSell, UpdateDiff, UpdateL1Diff, OrderFeeOk, AddToSet;
  }

  lemma {:induction false} PartyFillIsFair(p: Party, globalExpiration: felt, sold: felt, bought: felt)
    requires 0 <= sold < BALANCE_BOUND && 0 <= bought < BALANCE_BOUND
    requires LimitOrderChecks(p.order, globalExpiration, sold, bought)
    requires p.fee.Some? ==> OrderFeeOk(p.fee.value.feeTaken, p.order.amountFee, bought, p.order.amountBuy)
    ensures FairFill(p.order, p.fee.Some?, Fill(sold, bought, FeeOf(p.fee)))
    ensures 0 <= p.order.amountSell < BALANCE_BOUND
  {
    hide LimitOrderChecks, OrderFeeOk;
    ChecksDecide(p.order, globalExpiration, sold, bought);
    if p.fee.Some? { OrderFeeExact(p.fee.value.feeTaken, p.order.amountFee, bought, p.order.amountBuy); }
  }

  predicate SmallOrders(orders: map<int, int>) {
    forall id :: id in orders ==> orders[id] < BALANCE_BOUND
  }

  /** A limit order fills its own signed message and lowers no entry. */
  lemma {:induction false} LimitOrderFills(s: Ledger, ctx: Context, p: Party, sold: felt, bought: felt,
                                           o: ExchangeOrder, withFee: bool)
    requires ValidOrders(s.orders) && SmallOrders(s.orders)
    requires 0 <= sold < BALANCE_BOUND && 0 <= bought < BALANCE_BOUND
    requires ExecuteLimitOrder(s, ctx, p, sold, bought).Done?
    ensures var after := ExecuteLimitOrder(s, ctx, p, sold, bought).value.orders;
      && SmallOrders(after)
      && Filled(s.orders, after, GetOrderHash(ctx.pedersen, o, withFee), o, withFee,
                FillsOf(p, sold, bought, o, withFee))
  {
    hide ExecuteLimitOrder, LimitOrderChecks, GetOrderHash, OrderFeeOk, FairFill, SameMessage;
    LimitOrderParts(s, ctx, p, sold, bought);
    PartyFillIsFair(p, ctx.globalExpiration, sold, bought);
    var hash := GetOrderHash(ctx.pedersen, p.order, p.fee.Some?);
    FulfillSellExact(s.orders, hash, sold, p.order.amountSell);
    SingleFill(Fill(sold, bought, FeeOf(p.fee)));
    if Matches(p, o, withFee) { MessageAgrees(ctx.pedersen, p.order, o, withFee, Fill(sold, bought, FeeOf(p.fee))); }
  }

  lemma {:induction false} SingleFill(f: Fill)
    ensures TotalSold([f]) == f.sold
  {
    assert [f][1..] == [];
  }

  lemma {:induction false} SettlementFills(s: Ledger, ctx: Context, tx: Transaction, o: ExchangeOrder, withFee: bool)
    requires ValidOrders(s.orders) && SmallOrders(s.orders)
    requires tx.Settlement? && ExecuteSettlement(s, ctx, tx).Done?
    ensures var after := ExecuteSettlement(s, ctx, tx).value.orders;
      && SmallOrders(after)
      && Filled(s.orders, after, GetOrderHash(ctx.pedersen, o, withFee), o, withFee, FillsIn(tx, o, withFee))
  {
    hide ExecuteLimitOrder, GetOrderHash, Filled, FillsOf;
    var id := GetOrderHash(ctx.pedersen, o, withFee);
    LimitOrderFills(s, ctx, tx.partyA, tx.partyASold, tx.partyBSold, o, withFee);
    var s1 := ExecuteLimitOrder(s, ctx, tx.partyA, tx.partyASold, tx.partyBSold).value;
    FilledIsValid(s.orders, s1.orders, id, o, withFee, FillsOf(tx.partyA, tx.partyASold, tx.partyBSold, o, withFee));
    LimitOrderFills(s1, ctx, tx.partyB, tx.partyBSold, tx.partyASold, o, withFee);
    var s2 := ExecuteLimitOrder(s1, ctx, tx.partyB, tx.partyBSold, tx.partyASold).value;
    FilledCompose(s.orders, s1.orders, s2.orders, id, o, withFee,
                  FillsOf(tx.partyA, tx.partyASold, tx.partyBSold, o, withFee),
                  FillsOf(tx.partyB, tx.partyBSold, tx.partyASold, o, withFee));
  }

  // ---- Other transactions ----

  lemma {:induction false} SpendOnceGrows(orders: map<int, int>, id: int, amount: int)
    requires ValidOrders(orders) && SmallOrders(orders) && 0 <= amount < BALANCE_BOUND
    requires SpendOnce(orders, id, amount).Done?
    ensures Grows(orders, SpendOnce(orders, id, amount).value) && SmallOrders(SpendOnce(orders, id, amount).value)
    ensures FulfilledAt(SpendOnce(orders, id, amount).value, id) == amount
  {
  }

  lemma {:induction false} OtherBooks(s: Ledger, ctx: Context, tx: Transaction)
    requires !tx.Settlement? && ExecuteTransaction(s, ctx, tx).Done?
    ensures var after := ExecuteTransaction(s, ctx, tx).value.orders;
      if tx.Transfer? then
        && IsNn(tx.transfer.amount) && IsNn(BALANCE_BOUND - 1 - tx.transfer.amount)
        && SpendOnce(s.orders, TransferMessage(ctx.pedersen, tx.transfer, tx.condition, tx.fee.Some?),
                     tx.transfer.amount) == Done(after)
      else if tx.Mint? && ctx.uniqueMinting then
        SpendOnce(s.orders, ctx.pedersen(MINT_TREE_INDEX_SALT, tx.tokenId), 1) == Done(after)
      else after == s.orders
  {
    hide UpdateDiff, UpdateL1Diff, TransferFeeOk, TransferMessage, SpendOnce, UpdateBalances, IsNn, ActionWord;
  }

  lemma {:induction false} StepFills(s: Ledger, ctx: Context, tx: Transaction, o: ExchangeOrder, withFee: bool)
    requires ValidOrders(s.orders) && SmallOrders(s.orders) && ExecuteTransaction(s, ctx, tx).Done?
    ensures var after := ExecuteTransaction(s, ctx, tx).value.orders;
      && SmallOrders(after)
      && Filled(s.orders, after, GetOrderHash(ctx.pedersen, o, withFee), o, withFee, FillsIn(tx, o, withFee))
  {
    hide GetOrderHash, Filled, ExecuteSettlement, ExecuteTransfer, ExecuteMint, ExecuteModification,
      ExecuteFalseFullWithdrawal, SpendOnce, TransferMessage;
    var id := GetOrderHash(ctx.pedersen, o, withFee);
    var after := ExecuteTransaction(s, ctx, tx).value.orders;
    if tx.Settlement? {
      SettlementFills(s, ctx, tx, o, withFee);
    } else {
      OtherBooks(s, ctx, tx);
      if tx.Transfer? {
        SpendOnceGrows(s.orders, TransferMessage(ctx.pedersen, tx.transfer, tx.condition, tx.fee.Some?),
                       tx.transfer.amount);
      } else if tx.Mint? && ctx.uniqueMinting {
        SpendOnceGrows(s.orders, ctx.pedersen(MINT_TREE_INDEX_SALT, tx.tokenId), 1);
      }
      NothingFilled(s.orders, after, id, o, withFee);
    }
  }

  /** Over any batch, the fills of one signed message are fair and total at most what was open. */
  lemma {:induction false} RunFills(s: Ledger, ctx: Context, txs: seq<Transaction>, o: ExchangeOrder, withFee: bool)
    requires ValidOrders(s.orders) && SmallOrders(s.orders) && ExecuteBatch(s, ctx, txs).Done?
    ensures Filled(s.orders, ExecuteBatch(s, ctx, txs).value.orders, GetOrderHash(ctx.pedersen, o, withFee), o, withFee,
                   FillsOver(txs, o, withFee))
    decreases |txs|
  {
    hide GetOrderHash, Filled, ExecuteTransaction, FillsIn, ValidOrders, SmallOrders, Grows;
    var id := GetOrderHash(ctx.pedersen, o, withFee);
    if txs == [] {
      SameGrows(s.orders);
      NothingFilled(s.orders, s.orders, id, o, withFee);
    } else {
      var s1 := ExecuteTransaction(s, ctx, txs[0]).value;
      StepFills(s, ctx, txs[0], o, withFee);
      FilledIsValid(s.orders, s1.orders, id, o, withFee, FillsIn(txs[0], o, withFee));
      RunFills(s1, ctx, txs[1..], o, withFee);
      FilledCompose(s.orders, s1.orders, ExecuteBatch(s1, ctx, txs[1..]).value.orders, id, o, withFee,
                    FillsIn(txs[0], o, withFee), FillsOver(txs[1..], o, withFee));
    }
  }

  lemma {:induction false} SameGrows(orders: map<int, int>)
    requires ValidOrders(orders)
    ensures Grows(orders, orders)
  {
  }

  // ---- What the fills add up to ----

  lemma {:induction false} FairSums(o: ExchangeOrder, withFee: bool, fs: seq<Fill>)
    requires AllFair(o, withFee, fs)
    ensures TotalSold(fs) * o.amountBuy <= o.amountSell * TotalBought(fs)
    ensures if withFee then 0 <= TotalFee(fs) * o.amountBuy <= o.amountFee * TotalBought(fs) else TotalFee(fs) == 0
    decreases |fs|
  {
    if fs != [] {
      var f, rest := fs[0], fs[1..];
      assert FairFill(o, withFee, f);
      FairSums(o, withFee, rest);
      Distribute(f.sold, TotalSold(rest), o.amountBuy);
      Distribute(f.bought, TotalBought(rest), o.amountSell);
      Distribute(f.fee, TotalFee(rest), o.amountBuy);
      Distribute(f.bought, TotalBought(rest), o.amountFee);
    }
  }

  /** Over any batch: the fills of one signed message, under any keys and signatures together, never
      sell more than was still open of its amount, buy at the signed price or better in total, and
      keep the total fee in the signed ratio. */
  lemma {:induction false} OrderOwnerIsProtected(s: Ledger, ctx: Context, txs: seq<Transaction>, o: ExchangeOrder,
                                                 withFee: bool)
    requires ValidOrders(s.orders) && SmallOrders(s.orders) && ExecuteBatch(s, ctx, txs).Done?
    requires FillsOver(txs, o, withFee) != []
    ensures var fs := FillsOver(txs, o, withFee);
      && TotalSold(fs) <= o.amountSell - FulfilledAt(s.orders, GetOrderHash(ctx.pedersen, o, withFee))
      && TotalSold(fs) * o.amountBuy <= o.amountSell * TotalBought(fs)
      && (if withFee then 0 <= TotalFee(fs) * o.amountBuy <= o.amountFee * TotalBought(fs) else TotalFee(fs) == 0)
  {
    hide GetOrderHash, ExecuteBatch, Grows, ValidOrders, SmallOrders, AllFair, TotalSold, TotalFee, TotalBought,
      FillsOver;
    RunFills(s, ctx, txs, o, withFee);
    FairSums(o, withFee, FillsOver(txs, o, withFee));
  }

  // ---- Minting ----

  /** The field check on a token id: exactly the ids whose minting bit is set, whose control bits are
      clear and whose lower part is below 2^240. */
  lemma {:induction false} MintableExact(tokenId: felt)
    ensures (tokenId - MINTING_BIT) % P < MINTABLE_ASSET_ID_BOUND <==>
            MINTING_BIT <= tokenId % P < MINTING_BIT + MINTABLE_ASSET_ID_BOUND
  {
  }

  /** While unique minting is enforced, a batch mints a token at most once, and not at all once its
      entry is set. */
  lemma {:induction false} MintedOnce(s: Ledger, ctx: Context, txs: seq<Transaction>, tokenId: int)
    requires ctx.uniqueMinting && ValidOrders(s.orders) && SmallOrders(s.orders) && ExecuteBatch(s, ctx, txs).Done?
    ensures Minted(txs, tokenId) <= (if FulfilledAt(s.orders, ctx.pedersen(MINT_TREE_INDEX_SALT, tokenId)) == 0 then 1
                                     else 0)
    decreases |txs|
  {
    hide ExecuteTransaction, ValidOrders, SmallOrders;
    if txs != [] {
      var s1 := ExecuteTransaction(s, ctx, txs[0]).value;
      StepGrows(s, ctx, txs[0], ctx.pedersen(MINT_TREE_INDEX_SALT, tokenId));
      MintedOnce(s1, ctx, txs[1..], tokenId);
      if txs[0].Mint? && txs[0].tokenId == tokenId { OtherBooks(s, ctx, txs[0]); }
    }
  }

  // ---- Transfers ----

  /** The field sizes of the format in which a transfer is signed. */
  predicate TransferFits(t: ExchangeTransfer, condition: int, withFee: bool) {
    if withFee then ValidTransferFields(FieldsOfTransfer(t)) else Valid31(TransferMessage31(t, condition))
  }

  /** The two transfers are one signed message. */
  predicate SameTransfer(a: ExchangeTransfer, conditionA: int, b: ExchangeTransfer, conditionB: int, withFee: bool) {
    && conditionA == conditionB
    && (if withFee then FieldsOfTransfer(a) == FieldsOfTransfer(b)
        else TransferMessage31(a, conditionA) == TransferMessage31(b, conditionB))
  }

  /** The order entry of a transfer belongs to its signed message alone, if the pair hash has no
      collisions: transfers have one hash exactly when they are one message in one format. */
  lemma {:induction false} SameTransferIsSameHash(h: PairHash, a: ExchangeTransfer, conditionA: int, feeA: bool,
                                                  b: ExchangeTransfer, conditionB: int, feeB: bool)
    requires Injective(h) && TransferFits(a, conditionA, feeA) && TransferFits(b, conditionB, feeB)
    ensures TransferMessage(h, a, conditionA, feeA) == TransferMessage(h, b, conditionB, feeB) <==>
            feeA == feeB && SameTransfer(a, conditionA, b, conditionB, feeA)
  {
    hide Valid31, ValidTransferFields, TransferHash, HashOf;
    var someOrder := LimitFields(0, 0, 0, 0, 0, 0, 0, 0, 0, 0, 0);
    assert ValidLimitFields(someOrder);
    TransferHashIs31(h, a, conditionA);
    TransferHashIs31(h, b, conditionB);
    if feeA && feeB {
      if TransferMessage(h, a, conditionA, true) == TransferMessage(h, b, conditionB, true) {
        TransferHashCommits(h, FieldsOfTransfer(a), conditionA, FieldsOfTransfer(b), conditionB);
      }
    } else if feeA {
      FormatsApart(h, TransferMessage31(b, conditionB), someOrder, FieldsOfTransfer(a), conditionA);
    } else if feeB {
      FormatsApart(h, TransferMessage31(a, conditionA), someOrder, FieldsOfTransfer(b), conditionB);
    } else {
      Hash31Commits(h, TransferMessage31(a, conditionA), TransferMessage31(b, conditionB));
    }
  }

  /** Transfers of a non-zero amount that carry the message `id`. */
  function Transferred(h: PairHash, txs: seq<Transaction>, id: int): nat {
    if txs == [] then 0
    else
      (if txs[0].Transfer? && txs[0].transfer.amount != 0
          && TransferMessage(h, txs[0].transfer, txs[0].condition, txs[0].fee.Some?) == id then 1 else 0)
      + Transferred(h, txs[1..], id)
  }

  /** Over any batch, transfers with one message execute at most once, and not at all once the entry
      of the message is set, provided that they move something. */
  lemma {:induction false} TransferredOnce(s: Ledger, ctx: Context, txs: seq<Transaction>, id: int)
    requires ValidOrders(s.orders) && SmallOrders(s.orders) && ExecuteBatch(s, ctx, txs).Done?
    ensures Transferred(ctx.pedersen, txs, id) <= (if FulfilledAt(s.orders, id) == 0 then 1 else 0)
    decreases |txs|
  {
    hide ExecuteTransaction, ValidOrders, SmallOrders, TransferMessage;
    if txs != [] {
      var s1 := ExecuteTransaction(s, ctx, txs[0]).value;
      StepGrows(s, ctx, txs[0], id);
      TransferredOnce(s1, ctx, txs[1..], id);
      if txs[0].Transfer? { TransferMarksMessage(s, ctx, txs[0]); }
    }
  }

  /** An accepted transfer finds its entry unset, and leaves it unset exactly when its amount is
      zero: the entry records the amount. */
  lemma {:induction false} TransferMarksMessage(s: Ledger, ctx: Context, tx: Transaction)
    requires tx.Transfer? && ExecuteTransaction(s, ctx, tx).Done?
    ensures var id := TransferMessage(ctx.pedersen, tx.transfer, tx.condition, tx.fee.Some?);
      && FulfilledAt(s.orders, id) == 0
      && (FulfilledAt(ExecuteTransaction(s, ctx, tx).value.orders, id) == 0 <==> tx.transfer.amount == 0)
  {
    hide ExecuteTransaction, TransferMessage;
    OtherBooks(s, ctx, tx);
  }

  /** Right after an accepted transfer the same transfer is accepted again exactly when its amount is
      zero and the vaults can pay its fee a second time. */
  lemma {:induction false} TransferRepeats(s: Ledger, ctx: Context, tx: Transaction)
    requires tx.Transfer? && ExecuteTransaction(s, ctx, tx).Done?
    ensures var s1 := ExecuteTransaction(s, ctx, tx).value;
      ExecuteTransaction(s1, ctx, tx).Done? <==> tx.transfer.amount == 0 && MoveTransfer(s1, tx.transfer, tx.fee).Done?
  {
    hide ExecuteTransaction, TransferMessage, TransferChecks, MoveTransfer;
    TransferMarksMessage(s, ctx, tx);
    var s1 := ExecuteTransaction(s, ctx, tx).value;
    TransferAccepted(s, ctx, tx);
    TransferAccepted(s1, ctx, tx);
  }

  /** What a transfer needs to be accepted. */
  lemma {:induction false} TransferAccepted(s: Ledger, ctx: Context, tx: Transaction)
    requires tx.Transfer?
    ensures var t, id := tx.transfer, TransferMessage(ctx.pedersen, tx.transfer, tx.condition, tx.fee.Some?);
      ExecuteTransaction(s, ctx, tx).Done? <==>
        && TransferChecks(t, ctx.globalExpiration) && MoveTransfer(s, t, tx.fee).Done?
        && ctx.verify(id, t.base.publicKey, t.base.signatureR, t.base.signatureS) && 0 <= id < ORDER_ID_BOUND
        && FulfilledAt(s.orders, id) == 0
  {
    hide TransferMessage, TransferChecks, MoveTransfer;
    if MoveTransfer(s, tx.transfer, tx.fee).Done? { MoveKeepsOrders(s, tx.transfer, tx.fee); }
  }

  lemma {:induction false} MoveKeepsOrders(s: Ledger, t: ExchangeTransfer, fee: Option<FeeInfo>)
    requires MoveTransfer(s, t, fee).Done?
    ensures MoveTransfer(s, t, fee).value.orders == s.orders
  {
    hide UpdateDiff, UpdateL1Diff, TransferFeeOk;
  }

  lemma {:induction false} StepGrows(s: Ledger, ctx: Context, tx: Transaction, id: int)
    requires ValidOrders(s.orders) && SmallOrders(s.orders) && ExecuteTransaction(s, ctx, tx).Done?
    ensures var after := ExecuteTransaction(s, ctx, tx).value.orders;
      ValidOrders(after) && SmallOrders(after) && 0 <= FulfilledAt(s.orders, id) <= FulfilledAt(after, id)
  {
    hide ExecuteTransaction, GetOrderHash;
    StepFills(s, ctx, tx, SOME_ORDER, false);
  }

  /** Any order will do where only the growth of the dictionary matters. */
  const SOME_ORDER := ExchangeOrder(OrderBase(0, 0, 0, 0, 0), 0, 0, 0, 0, 0, 0, 0, 0, 0)
}
