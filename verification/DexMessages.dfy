/** The two message formats of the spot exchange (starkware/cairo/dex/message_hashes.cairo): each
    commits to all of its fields, and no message of one format is a message of the other. */
module DexMessages {
  import opened Arithmetic
  import opened MessageHashes
  import opened Dex

  /** The fields of a 31-bit message. */
  datatype Message31 = Message31(
    orderType: int, vault0: int, vault1: int, amount0: int, amount1: int, token0: int, token1OrKey: int,
    nonce: int, expiration: int, condition: int)

  function HashOf(h: PairHash, m: Message31): int {
    Hash31(h, m.orderType, m.vault0, m.vault1, m.amount0, m.amount1, m.token0, m.token1OrKey, m.nonce, m.expiration,
           m.condition)
  }

  /** The message of an order that is signed without a fee. */
  function OrderMessage31(o: ExchangeOrder): Message31 {
    Message31(SETTLEMENT_ORDER_TYPE_31, o.vaultSell, o.vaultBuy, o.amountSell, o.amountBuy, o.assetIdSell, o.assetIdBuy,
              o.base.nonce, o.base.expirationTimestamp, 0)
  }

  /** The message of a transfer that is signed without a fee. */
  function TransferMessage31(t: ExchangeTransfer, condition: int): Message31 {
    Message31(if condition != 0 then CONDITIONAL_TRANSFER_ORDER_TYPE_31 else TRANSFER_ORDER_TYPE_31,
              t.senderVaultId, t.receiverVaultId, t.amount, 0, t.assetId, t.receiverPublicKey,
              t.base.nonce, t.base.expirationTimestamp, condition)
  }

  lemma {:induction false} OrderHashIs31(h: PairHash, o: ExchangeOrder)
    ensures GetOrderHash(h, o, false) == HashOf(h, OrderMessage31(o))
  {
  }

  lemma {:induction false} TransferHashIs31(h: PairHash, t: ExchangeTransfer, condition: int)
    ensures TransferMessage(h, t, condition, false) == HashOf(h, TransferMessage31(t, condition))
  {
  }

  /** The field sizes of the format in which an order is signed. */
  predicate OrderFits(o: ExchangeOrder, withFee: bool) {
    if withFee then ValidLimitFields(FieldsOf(o)) else Valid31(OrderMessage31(o))
  }

  /** The ranges that order_and_transfer_hash_31 assumes; only a conditional transfer has a condition. */
  predicate Valid31(m: Message31) {
    && 0 <= m.orderType <= CONDITIONAL_TRANSFER_ORDER_TYPE_31
    && 0 <= m.vault0 < VAULT_SHIFT_31 && 0 <= m.vault1 < VAULT_SHIFT_31
    && 0 <= m.amount0 < BALANCE_BOUND && 0 <= m.amount1 < BALANCE_BOUND
    && 0 <= m.nonce < DEX_NONCE_BOUND && 0 <= m.expiration < DEX_EXPIRATION_BOUND
    && (m.condition != 0 <==> m.orderType == CONDITIONAL_TRANSFER_ORDER_TYPE_31)
  }

  function Upper31(m: Message31): int {
    (m.orderType * VAULT_SHIFT_31 + m.vault0) * VAULT_SHIFT_31 + m.vault1
  }

  function Lower31(m: Message31): int {
    ((m.amount0 * BALANCE_BOUND + m.amount1) * DEX_NONCE_BOUND + m.nonce) * DEX_EXPIRATION_BOUND + m.expiration
  }

  const LOWER_BOUND_31: int := BALANCE_BOUND * BALANCE_BOUND * DEX_NONCE_BOUND * DEX_EXPIRATION_BOUND

  function Partial31(h: PairHash, m: Message31): int {
    var partial := h(m.token0, m.token1OrKey);
    if m.condition == 0 then partial else h(partial, m.condition)
  }

  /** The message as one link of the chain: the fields packed into a single word. */
  lemma {:induction false} HashParts(h: PairHash, m: Message31)
    requires Valid31(m)
    ensures HashOf(h, m) == h(Partial31(h, m), Upper31(m) * LOWER_BOUND_31 + Lower31(m))
    ensures 0 <= Lower31(m) < LOWER_BOUND_31
    ensures m.orderType * TWO_241 <= Upper31(m) * LOWER_BOUND_31 + Lower31(m) < (m.orderType + 1) * TWO_241
  {
  }

  lemma {:induction false} UpperDetermines(a: Message31, b: Message31)
    requires Valid31(a) && Valid31(b) && Upper31(a) == Upper31(b)
    ensures a.orderType == b.orderType && a.vault0 == b.vault0 && a.vault1 == b.vault1
  {
    DigitsUnique(a.orderType * VAULT_SHIFT_31 + a.vault0, a.vault1, b.orderType * VAULT_SHIFT_31 + b.vault0, b.vault1,
                 VAULT_SHIFT_31);
    DigitsUnique(a.orderType, a.vault0, b.orderType, b.vault0, VAULT_SHIFT_31);
  }

  lemma {:induction false} LowerDetermines(a: Message31, b: Message31)
    requires Valid31(a) && Valid31(b) && Lower31(a) == Lower31(b)
    ensures a.amount0 == b.amount0 && a.amount1 == b.amount1 && a.nonce == b.nonce && a.expiration == b.expiration
  {
    var ua, ub := a.amount0 * BALANCE_BOUND + a.amount1, b.amount0 * BALANCE_BOUND + b.amount1;
    DigitsUnique(ua * DEX_NONCE_BOUND + a.nonce, a.expiration, ub * DEX_NONCE_BOUND + b.nonce, b.expiration,
                 DEX_EXPIRATION_BOUND);
    DigitsUnique(ua, a.nonce, ub, b.nonce, DEX_NONCE_BOUND);
    DigitsUnique(a.amount0, a.amount1, b.amount0, b.amount1, BALANCE_BOUND);
  }

  /** A 31-bit message hash commits to the order type and to every field, the condition included. */
  lemma {:induction false} Hash31Commits(h: PairHash, a: Message31, b: Message31)
    requires Injective(h) && Valid31(a) && Valid31(b)
    ensures HashOf(h, a) == HashOf(h, b) <==> a == b
  {
    hide HashOf, Upper31, Lower31, Partial31;
    if HashOf(h, a) == HashOf(h, b) {
      HashParts(h, a);
      HashParts(h, b);
      hide Valid31;
      LinkInjective(h, Partial31(h, a), Upper31(a) * LOWER_BOUND_31 + Lower31(a), Partial31(h, b),
                    Upper31(b) * LOWER_BOUND_31 + Lower31(b));
      DigitsUnique(Upper31(a), Lower31(a), Upper31(b), Lower31(b), LOWER_BOUND_31);
      UpperDetermines(a, b);
      LowerDetermines(a, b);
      PartialDetermines(h, a, b);
    }
  }

  lemma {:induction false} PartialDetermines(h: PairHash, a: Message31, b: Message31)
    requires Injective(h) && (a.condition == 0 <==> b.condition == 0)
    requires Partial31(h, a) == Partial31(h, b)
    ensures a.token0 == b.token0 && a.token1OrKey == b.token1OrKey && a.condition == b.condition
  {
    if a.condition != 0 {
      LinkInjective(h, h(a.token0, a.token1OrKey), a.condition, h(b.token0, b.token1OrKey), b.condition);
    }
    LinkInjective(h, a.token0, a.token1OrKey, b.token0, b.token1OrKey);
  }

  /** No 31-bit message is a 64-bit limit order or transfer: an order signed without a fee cannot be
      run with one, nor the other way round. */
  lemma {:induction false} FormatsApart(h: PairHash, m: Message31, o: LimitFields, t: TransferFields, condition: int)
    requires Injective(h) && Valid31(m) && ValidLimitFields(o) && ValidTransferFields(t)
    ensures HashOf(h, m) != LimitOrderHash(h, o) && HashOf(h, m) != TransferHash(h, t, condition)
  {
    HashParts(h, m);
    WordsBelowPrime(o, t, condition);
    hide HashOf, Upper31, Lower31, Partial31, LimitWord0, LimitWord1, TransferWord0, TransferWord1;
    var word := Upper31(m) * LOWER_BOUND_31 + Lower31(m);
    if HashOf(h, m) == LimitOrderHash(h, o) {
      LinkInjective(h, Partial31(h, m), word, h(h(h(o.assetIdSell, o.assetIdBuy), o.assetIdFee), LimitWord0(o)),
                    LimitWord1(o));
    }
    var inner := h(h(t.assetId, t.assetIdFee), t.receiverPublicKey);
    if HashOf(h, m) == TransferHash(h, t, condition) {
      LinkInjective(h, Partial31(h, m), word,
                    h(if condition != 0 then h(inner, condition) else inner, TransferWord0(t)),
                    TransferWord1(t, condition));
    }
  }
}
