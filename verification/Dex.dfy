/** The spot exchange batch (starkware/cairo/dex): a ledger of vaults changed by settlements,
    transfers, mints and modifications. Every transaction is a step on the ledger; a transaction
    whose asserts fail has no step. The recorded dictionary accesses are modelled after squashing:
    an access reads the current value of its key. */
module Dex {
  import opened Felt
  import opened Options
  import opened MessageHashes

  const BALANCE_BOUND: int := 0x8000000000000000
  const DEX_NONCE_BOUND: int := 0x80000000
  const DEX_EXPIRATION_BOUND: int := 0x400000
  const ORDER_ID_BOUND: int := TWO_251
  const MINTABLE_ASSET_ID_BOUND: int := 0x1000000000000000000000000000000000000000000000000000000000000
  const MINTING_BIT: int := 0x400000000000000000000000000000000000000000000000000000000000000
  const MINT_TREE_INDEX_SALT: int := 0x6d696e74
  const ETH_ADDRESS_SHIFT: int := 0x10000000000000000000000000000000000000000
  const BALANCE_SHIFT: int := 0x10000000000000000
  const VAULT_SHIFT: int := 0x10000000000000000
  const FULL_WITHDRAWAL_SHIFT: int := BALANCE_SHIFT * VAULT_SHIFT
  const VAULT_SHIFT_31: int := 0x80000000
  const ROLLUP_VAULT_BIT: int := 0x8000000000000000
  const SETTLEMENT_ORDER_TYPE_31: int := 0
  const TRANSFER_ORDER_TYPE_31: int := 1
  const CONDITIONAL_TRANSFER_ORDER_TYPE_31: int := 2

  datatype VaultState = VaultState(starkKey: int, tokenId: int, balance: int)

  const EMPTY_VAULT := VaultState(0, 0, 0)

  type Vaults = map<int, VaultState>

  /** The preimage of an L1 dictionary key: (vault_index * 2^160 + eth_key, token_id). */
  datatype L1Key = L1Key(owner: int, tokenId: int)

  type L1Vaults = map<L1Key, int>

  datatype ExchangeOrder = ExchangeOrder(
    base: OrderBase, amountBuy: felt, amountSell: felt, amountFee: felt,
    assetIdBuy: felt, assetIdSell: felt, assetIdFee: felt,
    vaultBuy: felt, vaultSell: felt, vaultFee: felt)

  datatype ExchangeTransfer = ExchangeTransfer(
    base: OrderBase, senderVaultId: felt, receiverPublicKey: felt, receiverVaultId: felt,
    amount: felt, assetId: felt, srcFeeVaultId: felt, assetIdFee: felt, maxAmountFee: felt)

  datatype FeeInfo = FeeInfo(feeTaken: felt, destinationVaultId: felt, destinationStarkKey: felt)

  datatype Party = Party(order: ExchangeOrder, isL1: bool, fee: Option<FeeInfo>)

  datatype ModificationOutput = ModificationOutput(starkKey: int, tokenId: int, action: int)

  /** What L1OrderMessageOutput packs. */
  datatype L1OrderMessage = L1OrderMessage(ethKey: int, fields: LimitFields)

  datatype Transaction =
    | Settlement(partyA: Party, partyB: Party, partyASold: felt, partyBSold: felt)
    | Transfer(transfer: ExchangeTransfer, condition: felt, fee: Option<FeeInfo>)
    | Mint(tokenId: felt, vaultId: felt, starkKey: felt)
    | Modification(starkKey: felt, tokenId: felt, vaultIndex: felt, balanceAfter: felt, isFullWithdrawal: bool)
    | FalseFullWithdrawal(requesterStarkKey: felt, starkKey: felt, tokenId: felt, vaultIndex: felt)

  datatype Context = Context(uniqueMinting: bool, globalExpiration: felt, pedersen: PairHash, verify: Verifier)

  datatype Ledger = Ledger(
    vaults: Vaults, l1Vaults: L1Vaults, orders: map<int, int>,
    modifications: seq<ModificationOutput>, conditions: seq<int>, l1Messages: seq<L1OrderMessage>)

  // ---- Vaults ----

  function VaultAt(vaults: Vaults, index: int): VaultState {
    if index in vaults then vaults[index] else EMPTY_VAULT
  }

  /** get_vault_state: without a balance, key and token are dropped. */
  function GetVaultState(starkKey: int, tokenId: int, balance: int): VaultState {
    if balance == 0 then EMPTY_VAULT else VaultState(starkKey, tokenId, balance)
  }

  /** l2_vault_update_balances. */
  function UpdateBalances(vaults: Vaults, before: int, after: int, starkKey: int, tokenId: int,
                          index: int): Outcome<Vaults>
  {
    var _ :- Require(VaultAt(vaults, index) == GetVaultState(starkKey, tokenId, before));
    Done(vaults[index := GetVaultState(starkKey, tokenId, after)])
  }

  /** l2_vault_update_diff, with the balance of the vault as the guessed balance before. */
  function UpdateDiff(vaults: Vaults, diff: int, starkKey: int, tokenId: int, index: int): Outcome<Vaults> {
    var before := VaultAt(vaults, index).balance;
    var after := before + diff;
    var _ :- Require(IsNn(after) && IsNn(BALANCE_BOUND - 1 - after));
    UpdateBalances(vaults, before, after, starkKey, tokenId, index)
  }

  /** The guess is forced: no other balance before passes the dictionary check. */
  lemma {:induction false} BalanceBeforeUnique(vaults: Vaults, before: int, after: int, starkKey: int, tokenId: int,
                                               index: int)
    requires UpdateBalances(vaults, before, after, starkKey, tokenId, index).Done?
    ensures before == VaultAt(vaults, index).balance
  {
  }

  function KeyOfL1(ethKey: int, tokenId: int, vaultIndex: int): L1Key {
    L1Key(vaultIndex * ETH_ADDRESS_SHIFT + ethKey, tokenId)
  }

  /** l1_vault_update_diff. */
  function UpdateL1Diff(l1Vaults: L1Vaults, diff: int, key: L1Key): Outcome<L1Vaults> {
    var _ :- Require(key in l1Vaults);
    var before := l1Vaults[key];
    var _ :- Require(IsNnLe(before, BALANCE_BOUND - 1));
    var after := before + diff;
    var _ :- Require(IsNnLe(after, BALANCE_BOUND - 1));
    Done(l1Vaults[key := after])
  }

  // ---- Orders ----

  function FulfilledAt(orders: map<int, int>, id: int): int {
    if id in orders then orders[id] else 0
  }

  /** The packed word of a 31-bit message, before it becomes a field element. */
  function Packed31(orderType: int, vault0: int, vault1: int, amount0: int, amount1: int, nonce: int,
                    expiration: int): int
  {
    (((((orderType * VAULT_SHIFT_31 + vault0) * VAULT_SHIFT_31 + vault1) * BALANCE_BOUND + amount0)
      * BALANCE_BOUND + amount1) * DEX_NONCE_BOUND + nonce) * DEX_EXPIRATION_BOUND + expiration
  }

  /** order_and_transfer_hash_31. */
  function Hash31(h: PairHash, orderType: int, vault0: int, vault1: int, amount0: int, amount1: int,
                  token0: int, token1OrKey: int, nonce: int, expiration: int, condition: int): int
  {
    var partial := h(token0, token1OrKey);
    h(if condition == 0 then partial else h(partial, condition),
      Reduce(Packed31(orderType, vault0, vault1, amount0, amount1, nonce, expiration)))
  }

  function FieldsOf(o: ExchangeOrder): LimitFields {
    LimitFields(o.assetIdSell, o.assetIdBuy, o.assetIdFee, o.amountSell, o.amountBuy, o.amountFee,
                o.vaultFee, o.vaultSell, o.vaultBuy, o.base.nonce, o.base.expirationTimestamp)
  }

  /** get_order_hash: an order with a fee object is signed in the 64-bit format. */
  function GetOrderHash(h: PairHash, o: ExchangeOrder, withFee: bool): int {
    if withFee then LimitOrderHash(h, FieldsOf(o))
    else Hash31(h, SETTLEMENT_ORDER_TYPE_31, o.vaultSell, o.vaultBuy, o.amountSell, o.amountBuy,
                o.assetIdSell, o.assetIdBuy, o.base.nonce, o.base.expirationTimestamp, 0)
  }

  /** The range checks on a limit order and its fill in execute_limit_order, except the one on the
      order dictionary. */
  predicate LimitOrderChecks(o: ExchangeOrder, globalExpiration: int, sold: int, bought: int) {
    && IsNn(o.amountSell) && IsNn(BALANCE_BOUND - 1 - o.amountSell)
    && IsNn(o.amountBuy) && IsNn(BALANCE_BOUND - 1 - o.amountBuy)
    && IsNn(o.base.nonce) && IsNn(DEX_NONCE_BOUND - 1 - o.base.nonce)
    && IsNn(o.base.expirationTimestamp - globalExpiration)
    && IsNn(DEX_EXPIRATION_BOUND - 1 - o.base.expirationTimestamp)
    && IsNn(Times(o.amountSell, bought) - Times(sold, o.amountBuy))
  }

  /** The order dictionary entry of a limit order, with verify_order_id. */
  function FulfillSell(orders: map<int, int>, orderId: int, sold: int, amountSell: int): Outcome<map<int, int>> {
    var fulfilled := FulfilledAt(orders, orderId) + sold;
    var _ :- Require(0 <= orderId < ORDER_ID_BOUND && IsNn(amountSell - fulfilled));
    Done(orders[orderId := fulfilled])
  }

  /** An entry that must be new, of a transfer or of a mint. */
  function SpendOnce(orders: map<int, int>, id: int, amount: int): Outcome<map<int, int>> {
    var _ :- Require(FulfilledAt(orders, id) == 0);
    Done(orders[id := amount])
  }

  /** set_add. */
  function AddToSet(messages: seq<L1OrderMessage>, m: L1OrderMessage): seq<L1OrderMessage> {
    if m in messages then messages else messages + [m]
  }

  // ---- Fees ----

  /** transfer_validate_fee. */
  predicate TransferFeeOk(feeTaken: int, feeLimit: int) {
    IsNnLe(feeTaken, feeLimit) && IsLe(feeLimit, BALANCE_BOUND - 1)
  }

  /** order_validate_fee. */
  predicate OrderFeeOk(feeTaken: int, feeLimit: int, amountBought: int, orderBuy: int) {
    && IsLe(feeTaken, BALANCE_BOUND - 1)
    && IsLe(feeLimit, BALANCE_BOUND - 1)
    && IsNnLe(Times(feeTaken, orderBuy), Times(feeLimit, amountBought))
  }

  /** update_fee_vaults: the source first, then the destination, which is always on L2. */
  function UpdateFeeVaults(s: Ledger, userKey: int, tokenId: int, sourceVault: int, fee: FeeInfo,
                           fromL1: bool): Outcome<Ledger>
  {
    var s1 :- UpdateUserVault(s, -fee.feeTaken, userKey, tokenId, sourceVault, fromL1);
    UpdateUserVault(s1, fee.feeTaken, fee.destinationStarkKey, tokenId, fee.destinationVaultId, false)
  }

  /** One update of an L1 or an L2 vault. */
  function UpdateUserVault(s: Ledger, diff: int, key: int, tokenId: int, vaultIndex: int, onL1: bool): Outcome<Ledger> {
    if onL1 then
      var l1Vaults :- UpdateL1Diff(s.l1Vaults, diff, KeyOfL1(key, tokenId, vaultIndex));
      Done(s.(l1Vaults := l1Vaults))
    else
      var vaults :- UpdateDiff(s.vaults, diff, key, tokenId, vaultIndex);
      Done(s.(vaults := vaults))
  }

  // ---- Transactions ----

  /** update_vaults_and_verify_signature. */
  function UpdateVaultsAndVerify(s: Ledger, ctx: Context, o: ExchangeOrder, isL1: bool, sold: int, bought: int,
                                 hash: int): Outcome<Ledger>
  {
    var s0 :=
      if isL1 then s.(l1Messages := AddToSet(s.l1Messages, L1OrderMessage(o.base.publicKey, FieldsOf(o))))
      else s;
    var s1 :- UpdateUserVault(s0, -sold, o.base.publicKey, o.assetIdSell, o.vaultSell, isL1);
    var s2 :- UpdateUserVault(s1, bought, o.base.publicKey, o.assetIdBuy, o.vaultBuy, isL1);
    var _ :- Require(isL1 || ctx.verify(hash, o.base.publicKey, o.base.signatureR, o.base.signatureS));
    Done(s2)
  }

  /** validate_and_update_fee_vaults. */
  function UpdateOrderFee(s: Ledger, o: ExchangeOrder, isL1: bool, bought: int, fee: Option<FeeInfo>): Outcome<Ledger> {
    match fee
    case None => Done(s)
    case Some(f) =>
      var _ :- Require(OrderFeeOk(f.feeTaken, o.amountFee, bought, o.amountBuy));
      UpdateFeeVaults(s, o.base.publicKey, o.assetIdFee, o.vaultFee, f, isL1)
  }

  /** execute_limit_order. */
  function ExecuteLimitOrder(s: Ledger, ctx: Context, p: Party, sold: int, bought: int): Outcome<Ledger> {
    var _ :- Require(LimitOrderChecks(p.order, ctx.globalExpiration, sold, bought));
    var hash := GetOrderHash(ctx.pedersen, p.order, p.fee.Some?);
    var orders :- FulfillSell(s.orders, hash, sold, p.order.amountSell);
    var s1 :- UpdateVaultsAndVerify(s.(orders := orders), ctx, p.order, p.isL1, sold, bought, hash);
    UpdateOrderFee(s1, p.order, p.isL1, bought, p.fee)
  }

  /** execute_settlement. */
  function ExecuteSettlement(s: Ledger, ctx: Context, tx: Transaction): Outcome<Ledger>
    requires tx.Settlement?
  {
    var _ :- Require(IsNn(tx.partyASold) && IsNn(BALANCE_BOUND - 1 - tx.partyASold));
    var _ :- Require(IsNn(tx.partyBSold) && IsNn(BALANCE_BOUND - 1 - tx.partyBSold));
    var _ :- Require(tx.partyA.order.assetIdBuy == tx.partyB.order.assetIdSell);
    var _ :- Require(tx.partyB.order.assetIdBuy == tx.partyA.order.assetIdSell);
    var s1 :- ExecuteLimitOrder(s, ctx, tx.partyA, tx.partyASold, tx.partyBSold);
    ExecuteLimitOrder(s1, ctx, tx.partyB, tx.partyBSold, tx.partyASold)
  }

  /** The range checks of execute_transfer. */
  predicate TransferChecks(t: ExchangeTransfer, globalExpiration: int) {
    && IsNn(t.amount) && IsNn(BALANCE_BOUND - 1 - t.amount)
    && IsNn(t.base.nonce) && IsNn(DEX_NONCE_BOUND - 1 - t.base.nonce)
    && IsNn(t.base.expirationTimestamp - globalExpiration)
    && IsNn(DEX_EXPIRATION_BOUND - 1 - t.base.expirationTimestamp)
  }

  function FieldsOfTransfer(t: ExchangeTransfer): TransferFields {
    TransferFields(t.assetId, t.assetIdFee, t.receiverPublicKey, t.senderVaultId, t.receiverVaultId,
                   t.srcFeeVaultId, t.amount, t.maxAmountFee, t.base.nonce, t.base.expirationTimestamp)
  }

  function TransferMessage(h: PairHash, t: ExchangeTransfer, condition: int, withFee: bool): int {
    if withFee then
      TransferHash(h, FieldsOfTransfer(t), condition)
    else
      Hash31(h, if condition != 0 then CONDITIONAL_TRANSFER_ORDER_TYPE_31 else TRANSFER_ORDER_TYPE_31,
             t.senderVaultId, t.receiverVaultId, t.amount, 0, t.assetId, t.receiverPublicKey,
             t.base.nonce, t.base.expirationTimestamp, condition)
  }

  /** The vault updates of a transfer: sender, receiver, then the fee vaults. */
  function MoveTransfer(s: Ledger, t: ExchangeTransfer, fee: Option<FeeInfo>): Outcome<Ledger> {
    var s1 :- UpdateUserVault(s, -t.amount, t.base.publicKey, t.assetId, t.senderVaultId, false);
    var s2 :- UpdateUserVault(s1, t.amount, t.receiverPublicKey, t.assetId, t.receiverVaultId, false);
    match fee
    case None => Done(s2)
    case Some(f) =>
      var _ :- Require(TransferFeeOk(f.feeTaken, t.maxAmountFee));
      UpdateFeeVaults(s2, t.base.publicKey, t.assetIdFee, t.srcFeeVaultId, f, false)
  }

  /** execute_transfer. */
  function ExecuteTransfer(s: Ledger, ctx: Context, tx: Transaction): Outcome<Ledger>
    requires tx.Transfer?
  {
    var t := tx.transfer;
    var _ :- Require(TransferChecks(t, ctx.globalExpiration));
    var s1 :- MoveTransfer(s, t, tx.fee);
    var hash := TransferMessage(ctx.pedersen, t, tx.condition, tx.fee.Some?);
    var _ :- Require(ctx.verify(hash, t.base.publicKey, t.base.signatureR, t.base.signatureS));
    var _ :- Require(0 <= hash < ORDER_ID_BOUND);
    var orders :- SpendOnce(s1.orders, hash, t.amount);
    Done(s1.(
      orders := orders,
      conditions := if tx.condition != 0 then s1.conditions + [tx.condition] else s1.conditions))
  }

  /** execute_offchain_minting. */
  function ExecuteMint(s: Ledger, ctx: Context, tx: Transaction): Outcome<Ledger>
    requires tx.Mint?
  {
    var _ :- Require((tx.tokenId - MINTING_BIT) % P < MINTABLE_ASSET_ID_BOUND);
    var orders :-
      if ctx.uniqueMinting then SpendOnce(s.orders, ctx.pedersen(MINT_TREE_INDEX_SALT, tx.tokenId), 1)
      else Done(s.orders);
    UpdateUserVault(s.(orders := orders), 1, tx.starkKey, tx.tokenId, tx.vaultId, false)
  }

  function ActionWord(isFullWithdrawal: bool, vaultIndex: int, diff: int): int {
    ((if isFullWithdrawal then VAULT_SHIFT else 0) + vaultIndex) * BALANCE_SHIFT + diff + BALANCE_BOUND
  }

  /** execute_modification. */
  function ExecuteModification(s: Ledger, tx: Transaction): Outcome<Ledger>
    requires tx.Modification?
  {
    var before := VaultAt(s.vaults, tx.vaultIndex).balance;
    var after := tx.balanceAfter;
    var _ :- Require(IsNn(before) && IsNn(BALANCE_BOUND - 1 - before));
    var _ :- Require(IsNn(after) && IsNn(BALANCE_BOUND - 1 - after));
    var _ :- Require(IsNn(tx.vaultIndex) && IsNn(VAULT_SHIFT - 1 - tx.vaultIndex));
    var _ :- Require(tx.isFullWithdrawal ==> after == 0);
    var vaults :- UpdateBalances(s.vaults, before, after, tx.starkKey, tx.tokenId, tx.vaultIndex);
    var output := ModificationOutput(tx.starkKey, tx.tokenId,
                                     ActionWord(tx.isFullWithdrawal, tx.vaultIndex, after - before));
    Done(s.(vaults := vaults, modifications := s.modifications + [output]))
  }

  /** execute_false_full_withdrawal. */
  function ExecuteFalseFullWithdrawal(s: Ledger, tx: Transaction): Outcome<Ledger>
    requires tx.FalseFullWithdrawal?
  {
    var before := VaultAt(s.vaults, tx.vaultIndex).balance;
    var vaults :- UpdateBalances(s.vaults, before, before, tx.starkKey, tx.tokenId, tx.vaultIndex);
    var _ :- Require(tx.requesterStarkKey != tx.starkKey);
    var action := tx.vaultIndex * BALANCE_SHIFT + BALANCE_BOUND + FULL_WITHDRAWAL_SHIFT;
    Done(s.(vaults := vaults, modifications := s.modifications + [ModificationOutput(tx.requesterStarkKey, 0, action)]))
  }

  function ExecuteTransaction(s: Ledger, ctx: Context, tx: Transaction): Outcome<Ledger> {
    if tx.Settlement? then ExecuteSettlement(s, ctx, tx)
    else if tx.Transfer? then ExecuteTransfer(s, ctx, tx)
    else if tx.Mint? then ExecuteMint(s, ctx, tx)
    else if tx.FalseFullWithdrawal? then ExecuteFalseFullWithdrawal(s, tx)
    else ExecuteModification(s, tx)
  }

  /** execute_batch. */
  function ExecuteBatch(s: Ledger, ctx: Context, txs: seq<Transaction>): Outcome<Ledger>
    decreases |txs|
  {
    if txs == [] then Done(s)
    else
      var s1 :- ExecuteTransaction(s, ctx, txs[0]);
      ExecuteBatch(s1, ctx, txs[1..])
  }
}
