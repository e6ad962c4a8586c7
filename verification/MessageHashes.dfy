/** Messages that users sign (exchange/cairo/signature_message_hashes.cairo and the perpetual
    wrappers). The pair hash is a parameter; the statements assume that it has no collisions. */
module MessageHashes {
  import opened Felt

  type PairHash = (int, int) -> int

  /** Verification of a signature (r, s) on a message under a key. */
  type Verifier = (int, int, int, int) -> bool

  ghost predicate Injective(h: PairHash) {
    forall a, b, c, d :: h(a, b) == h(c, d) ==> a == c && b == d
  }

  /** One link of a hash chain commits to both of its inputs. */
  lemma {:induction false} LinkInjective(h: PairHash, x: int, y: int, z: int, w: int)
    requires Injective(h) && h(x, y) == h(z, w)
    ensures x == z && y == w
  {
  }

  const TWO_17: int := 0x20000
  const TWO_32: int := 0x100000000
  const TWO_49: int := 0x2000000000000
  const TWO_64: int := 0x10000000000000000
  const TWO_81: int := 0x200000000000000000000
  const TWO_241: int := 0x2000000000000000000000000000000000000000000000000000000000000
  const TWO_251: int := 0x800000000000000000000000000000000000000000000000000000000000000
  const WITHDRAWAL_TYPE: int := 6
  const WITHDRAWAL_TO_OWNER_KEY_TYPE: int := 7
  const LIMIT_ORDER_WITH_FEES: int := 3
  const TRANSFER_ORDER_TYPE: int := 4
  const CONDITIONAL_TRANSFER_ORDER_TYPE: int := 5

  predicate Fits32(x: int) { 0 <= x < TWO_32 }
  predicate Fits64(x: int) { 0 <= x < TWO_64 }

  datatype OrderBase = OrderBase(
    nonce: felt, publicKey: felt, expirationTimestamp: felt, signatureR: felt, signatureS: felt)

  /** ExchangeLimitOrder without its base. */
  datatype LimitFields = LimitFields(
    assetIdSell: int, assetIdBuy: int, assetIdFee: int,
    amountSell: int, amountBuy: int, amountFee: int,
    vaultFee: int, vaultSell: int, vaultBuy: int,
    nonce: int, expirationTimestamp: int)

  predicate ValidLimitFields(o: LimitFields) {
    && Fits64(o.amountSell) && Fits64(o.amountBuy) && Fits64(o.amountFee)
    && Fits64(o.vaultFee) && Fits64(o.vaultSell) && Fits64(o.vaultBuy)
    && Fits32(o.nonce) && Fits32(o.expirationTimestamp)
  }

  function LimitWord0(o: LimitFields): int {
    ((o.amountSell * TWO_64 + o.amountBuy) * TWO_64 + o.amountFee) * TWO_32 + o.nonce
  }

  function LimitWord1(o: LimitFields): int {
    ((((LIMIT_ORDER_WITH_FEES * TWO_64 + o.vaultFee) * TWO_64 + o.vaultSell) * TWO_64 + o.vaultBuy) * TWO_32
     + o.expirationTimestamp) * TWO_17
  }

  /** limit_order_hash. */
  function LimitOrderHash(h: PairHash, o: LimitFields): int {
    h(h(h(h(o.assetIdSell, o.assetIdBuy), o.assetIdFee), Reduce(LimitWord0(o))), Reduce(LimitWord1(o)))
  }

  datatype TransferFields = TransferFields(
    assetId: int, assetIdFee: int, receiverPublicKey: int,
    senderVaultId: int, receiverVaultId: int, srcFeeVaultId: int,
    amount: int, maxAmountFee: int, nonce: int, expirationTimestamp: int)

  predicate ValidTransferFields(t: TransferFields) {
    && Fits64(t.senderVaultId) && Fits64(t.receiverVaultId) && Fits64(t.srcFeeVaultId)
    && Fits64(t.amount) && Fits64(t.maxAmountFee)
    && Fits32(t.nonce) && Fits32(t.expirationTimestamp)
  }

  function TransferWord0(t: TransferFields): int {
    ((t.senderVaultId * TWO_64 + t.receiverVaultId) * TWO_64 + t.srcFeeVaultId) * TWO_32 + t.nonce
  }

  function TransferWord1(t: TransferFields, condition: int): int {
    var kind := if condition == 0 then TRANSFER_ORDER_TYPE else CONDITIONAL_TRANSFER_ORDER_TYPE;
    (((kind * TWO_64 + t.amount) * TWO_64 + t.maxAmountFee) * TWO_32 + t.expirationTimestamp) * TWO_81
  }

  /** transfer_hash: the condition enters the chain only when it is not zero. */
  function TransferHash(h: PairHash, t: TransferFields, condition: int): int {
    var m := h(h(t.assetId, t.assetIdFee), t.receiverPublicKey);
    var m1 := if condition != 0 then h(m, condition) else m;
    h(h(m1, Reduce(TransferWord0(t))), Reduce(TransferWord1(t, condition)))
  }

  lemma {:induction false} LimitWord0Determines(a: LimitFields, b: LimitFields)
    requires ValidLimitFields(a) && ValidLimitFields(b) && LimitWord0(a) == LimitWord0(b)
    ensures a.amountSell == b.amountSell && a.amountBuy == b.amountBuy && a.amountFee == b.amountFee
    ensures a.nonce == b.nonce
  {
  }

  lemma {:induction false} LimitWord1Determines(a: LimitFields, b: LimitFields)
    requires ValidLimitFields(a) && ValidLimitFields(b) && LimitWord1(a) == LimitWord1(b)
    ensures a.vaultFee == b.vaultFee && a.vaultSell == b.vaultSell && a.vaultBuy == b.vaultBuy
    ensures a.expirationTimestamp == b.expirationTimestamp
  {
  }

  lemma {:induction false} LimitWordsFit(o: LimitFields)
    requires ValidLimitFields(o)
    ensures Reduce(LimitWord0(o)) == LimitWord0(o) && Reduce(LimitWord1(o)) == LimitWord1(o)
  {
    assert 0 <= LimitWord0(o) < TWO_251 && 0 <= LimitWord1(o) < TWO_251;
  }

  /** A signed limit order commits to every field: equal hashes mean equal orders. */
  lemma {:induction false} LimitOrderHashCommits(h: PairHash, a: LimitFields, b: LimitFields)
    requires Injective(h) && ValidLimitFields(a) && ValidLimitFields(b)
    requires LimitOrderHash(h, a) == LimitOrderHash(h, b)
    ensures a == b
  {
    hide LimitWord0, LimitWord1, Reduce;
    LimitWordsFit(a);
    LimitWordsFit(b);
    LimitWord0Determines(a, b);
    LimitWord1Determines(a, b);
  }

  /** A negative fee limit borrows from the bought amount: two limit orders then have one hash under
      every pair hash. */
  lemma {:induction false} NegativeFeeBorrows(h: PairHash, o: LimitFields)
    requires -TWO_64 <= o.amountFee < 0 < o.amountBuy < TWO_64
    requires ValidLimitFields(o.(amountFee := 0))
    ensures var b := o.(amountBuy := o.amountBuy - 1, amountFee := o.amountFee + TWO_64);
      ValidLimitFields(b) && LimitOrderHash(h, b) == LimitOrderHash(h, o)
  {
    hide Reduce;
    assert LimitWord0(o.(amountBuy := o.amountBuy - 1, amountFee := o.amountFee + TWO_64)) == LimitWord0(o);
  }

  lemma {:induction false} TransferWordsDetermine(a: TransferFields, ca: int, b: TransferFields, cb: int)
    requires ValidTransferFields(a) && ValidTransferFields(b)
    requires TransferWord0(a) == TransferWord0(b) && TransferWord1(a, ca) == TransferWord1(b, cb)
    ensures a.senderVaultId == b.senderVaultId && a.receiverVaultId == b.receiverVaultId
    ensures a.srcFeeVaultId == b.srcFeeVaultId && a.nonce == b.nonce
    ensures a.amount == b.amount && a.maxAmountFee == b.maxAmountFee
    ensures a.expirationTimestamp == b.expirationTimestamp
    ensures ca == 0 <==> cb == 0
  {
  }

  lemma {:induction false} TransferWordsFit(t: TransferFields, condition: int)
    requires ValidTransferFields(t)
    ensures Reduce(TransferWord0(t)) == TransferWord0(t)
    ensures Reduce(TransferWord1(t, condition)) == TransferWord1(t, condition)
  {
    assert 0 <= TransferWord0(t) < TWO_251 && 0 <= TransferWord1(t, condition) < TWO_251;
  }

  /** A signed transfer commits to every field and to its condition, and an unconditional transfer
      never shares a hash with a conditional one. */
  lemma {:induction false} TransferHashCommits(h: PairHash, a: TransferFields, ca: int, b: TransferFields, cb: int)
    requires Injective(h) && ValidTransferFields(a) && ValidTransferFields(b)
    requires TransferHash(h, a, ca) == TransferHash(h, b, cb)
    ensures a == b && ca == cb
  {
    hide TransferWord0, TransferWord1, Reduce;
    TransferWordsFit(a, ca);
    TransferWordsFit(b, cb);
    TransferWordsDetermine(a, ca, b, cb);
  }

  /** Every packed word is below 2^251, hence below P, and its top ten bits are the order type. */
  lemma {:induction false} WordsBelowPrime(o: LimitFields, t: TransferFields, condition: int)
    requires ValidLimitFields(o) && ValidTransferFields(t)
    ensures 0 <= LimitWord0(o) < TWO_251 && 0 <= TransferWord0(t) < TWO_251
    ensures LIMIT_ORDER_WITH_FEES * TWO_241 <= LimitWord1(o) < (LIMIT_ORDER_WITH_FEES + 1) * TWO_241
    ensures var kind := if condition == 0 then TRANSFER_ORDER_TYPE else CONDITIONAL_TRANSFER_ORDER_TYPE;
      kind * TWO_241 <= TransferWord1(t, condition) < (kind + 1) * TWO_241
  {
  }

  /** The order type keeps the message kinds apart. */
  lemma {:induction false} LimitOrderIsNoTransfer(h: PairHash, o: LimitFields, t: TransferFields, condition: int)
    requires Injective(h) && ValidLimitFields(o) && ValidTransferFields(t)
    ensures LimitOrderHash(h, o) != TransferHash(h, t, condition)
  {
    WordsBelowPrime(o, t, condition);
  }

  datatype WithdrawalFields = WithdrawalFields(
    positionId: int, ownerKey: int, amount: int, nonce: int, expirationTimestamp: int)

  predicate ValidWithdrawalFields(w: WithdrawalFields) {
    Fits64(w.positionId) && Fits64(w.amount) && Fits32(w.nonce) && Fits32(w.expirationTimestamp)
  }

  /** The packed message of a withdrawal. */
  function WithdrawalWord(w: WithdrawalFields, kind: int): int {
    ((((kind * TWO_64 + w.positionId) * TWO_32 + w.nonce) * TWO_64 + w.amount) * TWO_32
     + w.expirationTimestamp) * TWO_49
  }

  /** withdrawal_hash: the owner key is hashed only when it differs from the signer's key. */
  function WithdrawalHash(h: PairHash, w: WithdrawalFields, publicKey: int, collateralAssetId: int): int {
    var toOwner := w.ownerKey != publicKey;
    var kind := if toOwner then WITHDRAWAL_TO_OWNER_KEY_TYPE else WITHDRAWAL_TYPE;
    h(if toOwner then h(collateralAssetId, w.ownerKey) else collateralAssetId, Reduce(WithdrawalWord(w, kind)))
  }

  /** For one signer a withdrawal hash commits to every field, the implicit owner key included. */
  lemma {:induction false} WithdrawalHashCommits(h: PairHash, a: WithdrawalFields, b: WithdrawalFields, publicKey: int,
                                                 asset: int)
    requires Injective(h) && ValidWithdrawalFields(a) && ValidWithdrawalFields(b)
    requires WithdrawalHash(h, a, publicKey, asset) == WithdrawalHash(h, b, publicKey, asset)
    ensures a == b
  {
    var ka := if a.ownerKey != publicKey then WITHDRAWAL_TO_OWNER_KEY_TYPE else WITHDRAWAL_TYPE;
    var kb := if b.ownerKey != publicKey then WITHDRAWAL_TO_OWNER_KEY_TYPE else WITHDRAWAL_TYPE;
    assert ka == kb;
  }

  lemma {:induction false} WithdrawalWordFits(w: WithdrawalFields, kind: int)
    requires ValidWithdrawalFields(w)
    ensures kind * TWO_241 <= WithdrawalWord(w, kind) < (kind + 1) * TWO_241
  {
  }

  /** A withdrawal shares its hash with no limit order and no transfer. */
  lemma {:induction false} WithdrawalIsNoOther(h: PairHash, w: WithdrawalFields, publicKey: int, asset: int,
                                               o: LimitFields, t: TransferFields, condition: int)
    requires Injective(h) && ValidWithdrawalFields(w) && ValidLimitFields(o) && ValidTransferFields(t)
    ensures WithdrawalHash(h, w, publicKey, asset) != LimitOrderHash(h, o)
    ensures WithdrawalHash(h, w, publicKey, asset) != TransferHash(h, t, condition)
  {
    WordsBelowPrime(o, t, condition);
    var toOwner := w.ownerKey != publicKey;
    var kind := if toOwner then WITHDRAWAL_TO_OWNER_KEY_TYPE else WITHDRAWAL_TYPE;
    WithdrawalWordFits(w, kind);
    hide WithdrawalWord, LimitWord0, LimitWord1, TransferWord0, TransferWord1;
    var start := if toOwner then h(asset, w.ownerKey) else asset;
    if WithdrawalHash(h, w, publicKey, asset) == LimitOrderHash(h, o) {
      LinkInjective(h, start, WithdrawalWord(w, kind),
                    h(h(h(o.assetIdSell, o.assetIdBuy), o.assetIdFee), LimitWord0(o)), LimitWord1(o));
    }
    if WithdrawalHash(h, w, publicKey, asset) == TransferHash(h, t, condition) {
      var m := h(h(t.assetId, t.assetIdFee), t.receiverPublicKey);
      LinkInjective(h, start, WithdrawalWord(w, kind),
                    h(if condition != 0 then h(m, condition) else m, TransferWord0(t)), TransferWord1(t, condition));
    }
  }
}
