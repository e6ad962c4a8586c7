/** Signed orders of the perpetual batch: order ids, fulfilment and fairness (order/order.cairo,
    order/validate_limit_order.cairo). */
module Orders {
  import opened Felt
  import opened PerpetualTypes
  import opened MessageHashes
  import opened Arithmetic

  const SIGNED_MESSAGE_BOUND: int := 0x800000000000000000000000000000000000000000000000000000000000000
  const ORDER_ID_SHIFT: int := 0x80000000000000000000000000000000000000000000000
  const MIDDLE_FIELD_BOUND: int := 0x800000000000000
  const ORDER_ID_UPPER_BOUND: int := 0x10000000000000000

  type OrderBook = map<int, int>

  function Fulfilled(orders: OrderBook, id: int): int {
    if id in orders then orders[id] else 0
  }

  /** The asserts of extract_order_id on the three guessed fields; the range of the order id is
      enforced by the order tree. */
  predicate OrderIdAccepted(messageHash: int, orderId: int, middle: int, right: int) {
    && (messageHash - (orderId * ORDER_ID_SHIFT + middle * RC_BOUND + right)) % P == 0
    && IsNn(right)
    && IsNnLe(middle, MIDDLE_FIELD_BOUND - 1)
    && 0 <= orderId < ORDER_ID_UPPER_BOUND
  }

  /** extract_order_id, run with the honest hint. */
  function ExtractOrderId(messageHash: int): int {
    messageHash / ORDER_ID_SHIFT
  }

  /** Every accepted guess is the 64 leading bits of the hash: the unpacking is unique although the
      defining equation is checked modulo P only. */
  lemma {:induction false} OrderIdUnique(messageHash: int, orderId: int, middle: felt, right: felt)
    requires 0 <= messageHash < SIGNED_MESSAGE_BOUND
    requires OrderIdAccepted(messageHash, orderId, middle, right)
    ensures orderId == ExtractOrderId(messageHash)
  {
    var packed := orderId * ORDER_ID_SHIFT + middle * RC_BOUND + right;
    assert 0 <= packed < SIGNED_MESSAGE_BOUND;
    CongruentSmall(messageHash, packed);
  }

  lemma {:induction false} CongruentSmall(a: int, b: int)
    requires (a - b) % P == 0 && 0 <= a < P && 0 <= b < P
    ensures a == b
  {
  }

  /** The honest guess is accepted. */
  lemma {:induction false} OrderIdExists(messageHash: int)
    requires 0 <= messageHash < SIGNED_MESSAGE_BOUND
    ensures OrderIdAccepted(messageHash, ExtractOrderId(messageHash),
                            messageHash % ORDER_ID_SHIFT / RC_BOUND, messageHash % RC_BOUND)
  {
    var id := messageHash / ORDER_ID_SHIFT;
    var rest := messageHash % ORDER_ID_SHIFT;
    assert messageHash == id * ORDER_ID_SHIFT + rest;
    assert ORDER_ID_SHIFT == MIDDLE_FIELD_BOUND * RC_BOUND;
    assert rest == (rest / RC_BOUND) * RC_BOUND + rest % RC_BOUND;
    assert messageHash % RC_BOUND == rest % RC_BOUND;
  }

  /** update_order_fulfillment. */
  function UpdateOrderFulfillment(orders: OrderBook, messageHash: int, updateAmount: int, fullAmount: int)
    : Outcome<OrderBook>
  {
    var id := ExtractOrderId(messageHash);
    var fulfilled := Fulfilled(orders, id);
    var _ :- Require(IsNnLe(updateAmount, fullAmount - fulfilled));
    var _ :- Require(IsLe(fullAmount, AMOUNT_UPPER_BOUND - 1));
    Done(orders[id := fulfilled + updateAmount])
  }

  /** validate_order_and_update_fulfillment. The signature builtin takes messages below 2^251. */
  function ValidateOrderAndUpdateFulfillment(orders: OrderBook, messageHash: int, base: OrderBase,
                                             minExpiration: int, updateAmount: int, fullAmount: int,
                                             verify: Verifier): Outcome<OrderBook>
  {
    var _ :- Require(0 <= messageHash < SIGNED_MESSAGE_BOUND);
    var _ :- Require(verify(messageHash, base.publicKey, base.signatureR, base.signatureS));
    var _ :- Require(IsInRange(base.expirationTimestamp, minExpiration, EXPIRATION_TIMESTAMP_UPPER_BOUND));
    var _ :- Require(IsNnLe(base.nonce, NONCE_UPPER_BOUND - 1));
    UpdateOrderFulfillment(orders, messageHash, updateAmount, fullAmount)
  }

  /** The amounts in the order tree are in range: the assumption update_order_fulfillment makes. */
  predicate ValidOrders(orders: OrderBook) {
    forall id :: id in orders ==> 0 <= orders[id] < AMOUNT_UPPER_BOUND
  }

  /** update_order_fulfillment succeeds exactly when the order has the capacity left, and it keeps
      the tree in range. A negative capacity, left by a colliding order id, is always rejected. */
  lemma {:induction false} FulfillmentExact(orders: OrderBook, messageHash: int, updateAmount: felt, fullAmount: felt)
    requires ValidOrders(orders)
    ensures var id, r := ExtractOrderId(messageHash),
            UpdateOrderFulfillment(orders, messageHash, updateAmount, fullAmount);
      && (r.Done? <==> 0 <= updateAmount && Fulfilled(orders, id) + updateAmount <= fullAmount < AMOUNT_UPPER_BOUND)
      && (r.Done? ==>
            && ValidOrders(r.value)
            && Fulfilled(r.value, id) == Fulfilled(orders, id) + updateAmount
            && forall x :: x != id ==> Fulfilled(r.value, x) == Fulfilled(orders, x))
  {
  }

  // ---- Fairness of a limit order fill ----

  datatype LimitOrder = LimitOrder(
    base: OrderBase, amountSynthetic: felt, amountCollateral: felt, amountFee: felt,
    assetIdSynthetic: felt, assetIdCollateral: felt, positionId: felt, isBuyingSynthetic: bool)

  /** limit_order_hash of the perpetual: the exchange order it stands for. */
  function ExchangeFields(o: LimitOrder): LimitFields {
    var buying := o.isBuyingSynthetic;
    LimitFields(
      if buying then o.assetIdCollateral else o.assetIdSynthetic,
      if buying then o.assetIdSynthetic else o.assetIdCollateral,
      o.assetIdCollateral,
      if buying then o.amountCollateral else o.amountSynthetic,
      if buying then o.amountSynthetic else o.amountCollateral,
      o.amountFee, o.positionId, o.positionId, o.positionId,
      o.base.nonce, o.base.expirationTimestamp)
  }

  /** validate_limit_order_fairness. */
  function ValidateFairness(o: LimitOrder, collateral: int, synthetic: int, fee: int): Outcome<()> {
    var _ :- Require(IsLe(Times(fee, o.amountCollateral), Times(o.amountFee, collateral)));
    if o.isBuyingSynthetic then
      if collateral == 0 then Done(())
      else Require(IsLe(Times(collateral - 1, o.amountSynthetic), Times(o.amountCollateral, synthetic) - 1))
    else
      Require(IsLe(Times(synthetic, o.amountCollateral), Times(o.amountSynthetic, collateral + 1) - 1))
  }

  /** The assumptions under which validate_limit_order_fairness is called. */
  predicate FairnessAssumptions(o: LimitOrder, collateral: int, synthetic: int, fee: int) {
    && 1 <= synthetic <= o.amountSynthetic < AMOUNT_UPPER_BOUND
    && 0 <= collateral < AMOUNT_UPPER_BOUND
    && 0 <= fee < AMOUNT_UPPER_BOUND
    && 0 < o.amountCollateral < AMOUNT_UPPER_BOUND
    && 0 <= o.amountFee < AMOUNT_UPPER_BOUND
  }

  /** The ratios the user signed, over the integers: the fee ratio exactly, the price ratio with
      one collateral unit of rounding in the user's disfavour. */
  predicate Fair(o: LimitOrder, collateral: int, synthetic: int, fee: int) {
    && fee * o.amountCollateral <= o.amountFee * collateral
    && (if o.isBuyingSynthetic
        then collateral == 0 || (collateral - 1) * o.amountSynthetic < o.amountCollateral * synthetic
        else synthetic * o.amountCollateral < o.amountSynthetic * (collateral + 1))
  }

  lemma {:induction false} AmountProduct(x: int, y: int)
    requires 0 <= x <= AMOUNT_UPPER_BOUND && 0 <= y <= AMOUNT_UPPER_BOUND
    ensures 0 <= x * y <= RC_BOUND && Times(x, y) == x * y
  {
    TimesIsProduct(x, y);
    var m := AMOUNT_UPPER_BOUND;
    ProductBound(x, y, m, m);
    assert m * m == RC_BOUND;
    NonNegativeProduct(x, y);
  }

  /** The range checks decide the integer ratios. */
  lemma {:induction false} FairnessExact(o: LimitOrder, collateral: int, synthetic: int, fee: int)
    requires FairnessAssumptions(o, collateral, synthetic, fee)
    ensures ValidateFairness(o, collateral, synthetic, fee).Done? <==> Fair(o, collateral, synthetic, fee)
  {
    hide Times;
    AmountProduct(fee, o.amountCollateral);
    AmountProduct(o.amountFee, collateral);
    AmountProduct(o.amountCollateral, synthetic);
    AmountProduct(synthetic, o.amountCollateral);
    AmountProduct(o.amountSynthetic, collateral + 1);
    if collateral > 0 { AmountProduct(collateral - 1, o.amountSynthetic); }
  }
}
