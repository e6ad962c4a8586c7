/** Where the vault ids of the 31-bit messages get their range from: no check of a transaction bounds
    them, only the two vault trees that the squashed dictionary is applied to (main.cairo). */
module DexVaultIds {
  import opened Felt
  import opened Options
  import opened MessageHashes
  import opened Dex
  import opened DexMessages
  import opened DexRollupMessages
  import opened DexConservation
  import opened DexFills
  import opened DexAuthorization

  /** The keys of the vault dictionary as the trees admit them: a validium tree of at most 31 levels,
      and the rollup vaults above bit 63. */
  predicate InTrees(vaults: Vaults) {
    forall i :: i in vaults ==> 0 <= i < VAULT_SHIFT_31 || ROLLUP_VAULT_BIT <= i
  }

  predicate KeysKept(a: Vaults, b: Vaults) {
    a.Keys <= b.Keys
  }

  // ---- Accessed vaults stay in the dictionary ----

  lemma {:induction false} UserVaultKeys(s: Ledger, diff: int, key: int, tokenId: int, vault: int, onL1: bool)
    requires UpdateUserVault(s, diff, key, tokenId, vault, onL1).Done?
    ensures var t := UpdateUserVault(s, diff, key, tokenId, vault, onL1).value;
      KeysKept(s.vaults, t.vaults) && (!onL1 ==> vault in t.vaults)
  {
    hide UpdateL1Diff, GetVaultState, IsNn;
  }

  lemma {:induction false} FeeVaultKeys(s: Ledger, userKey: int, tokenId: int, sourceVault: int, fee: FeeInfo,
                                        fromL1: bool)
    requires UpdateFeeVaults(s, userKey, tokenId, sourceVault, fee, fromL1).Done?
    ensures var t := UpdateFeeVaults(s, userKey, tokenId, sourceVault, fee, fromL1).value;
      KeysKept(s.vaults, t.vaults) && (!fromL1 ==> sourceVault in t.vaults)
  {
    hide UpdateUserVault;
    UserVaultKeys(s, -fee.feeTaken, userKey, tokenId, sourceVault, fromL1);
    var s1 := UpdateUserVault(s, -fee.feeTaken, userKey, tokenId, sourceVault, fromL1).value;
    UserVaultKeys(s1, fee.feeTaken, fee.destinationStarkKey, tokenId, fee.destinationVaultId, false);
  }

  /** The vaults that a party or a transfer names are keys of the dictionary. */
  predicate PartyVaultsIn(p: Party, vaults: Vaults) {
    p.order.vaultSell in vaults && p.order.vaultBuy in vaults && (p.fee.Some? ==> p.order.vaultFee in vaults)
  }

  predicate TransferVaultsIn(t: ExchangeTransfer, fee: Option<FeeInfo>, vaults: Vaults) {
    t.senderVaultId in vaults && t.receiverVaultId in vaults && (fee.Some? ==> t.srcFeeVaultId in vaults)
  }

  lemma {:induction false} PartyKeys(s: Ledger, ctx: Context, p: Party, sold: int, bought: int)
    requires ExecuteLimitOrder(s, ctx, p, sold, bought).Done?
    ensures var t := ExecuteLimitOrder(s, ctx, p, sold, bought).value;
      KeysKept(s.vaults, t.vaults) && (!p.isL1 ==> PartyVaultsIn(p, t.vaults))
  {
    hide UpdateUserVault, UpdateFeeVaults, LimitOrderChecks, GetOrderHash, OrderFeeOk, AddToSet;
    var o := p.order;
    var hash := GetOrderHash(ctx.pedersen, o, p.fee.Some?);
    var s0 := s.(orders := FulfillSell(s.orders, hash, sold, o.amountSell).value);
    var s1 :=
      if p.isL1 then s0.(l1Messages := AddToSet(s0.l1Messages, L1OrderMessage(o.base.publicKey, FieldsOf(o))))
      else s0;
    UserVaultKeys(s1, -sold, o.base.publicKey, o.assetIdSell, o.vaultSell, p.isL1);
    var s2 := UpdateUserVault(s1, -sold, o.base.publicKey, o.assetIdSell, o.vaultSell, p.isL1).value;
    UserVaultKeys(s2, bought, o.base.publicKey, o.assetIdBuy, o.vaultBuy, p.isL1);
    var s3 := UpdateUserVault(s2, bought, o.base.publicKey, o.assetIdBuy, o.vaultBuy, p.isL1).value;
    if p.fee.Some? { FeeVaultKeys(s3, o.base.publicKey, o.assetIdFee, o.vaultFee, p.fee.value, p.isL1); }
  }

  lemma {:induction false} TransferKeys(s: Ledger, t: ExchangeTransfer, fee: Option<FeeInfo>)
    requires MoveTransfer(s, t, fee).Done?
    ensures var r := MoveTransfer(s, t, fee).value;
      KeysKept(s.vaults, r.vaults) && TransferVaultsIn(t, fee, r.vaults)
  {
    hide UpdateUserVault, UpdateFeeVaults, TransferFeeOk;
    UserVaultKeys(s, -t.amount, t.base.publicKey, t.assetId, t.senderVaultId, false);
    var s1 := UpdateUserVault(s, -t.amount, t.base.publicKey, t.assetId, t.senderVaultId, false).value;
    UserVaultKeys(s1, t.amount, t.receiverPublicKey, t.assetId, t.receiverVaultId, false);
    var s2 := UpdateUserVault(s1, t.amount, t.receiverPublicKey, t.assetId, t.receiverVaultId, false).value;
    if fee.Some? { FeeVaultKeys(s2, t.base.publicKey, t.assetIdFee, t.srcFeeVaultId, fee.value, false); }
  }

  /** An L2 party of the transaction. */
  predicate HasParty(tx: Transaction, p: Party) {
    tx.Settlement? && (tx.partyA == p || tx.partyB == p) && !p.isL1
  }

  lemma {:induction false} TransactionKeys(s: Ledger, ctx: Context, tx: Transaction)
    requires ExecuteTransaction(s, ctx, tx).Done?
    ensures var t := ExecuteTransaction(s, ctx, tx).value;
      && KeysKept(s.vaults, t.vaults)
      && (forall p :: HasParty(tx, p) ==> PartyVaultsIn(p, t.vaults))
      && (tx.Transfer? ==> TransferVaultsIn(tx.transfer, tx.fee, t.vaults))
  {
    hide ExecuteLimitOrder, MoveTransfer, UpdateUserVault, TransferChecks, TransferMessage, SpendOnce, IsNn, ActionWord,
      GetVaultState;
    if tx.Settlement? {
      PartyKeys(s, ctx, tx.partyA, tx.partyASold, tx.partyBSold);
      var s1 := ExecuteLimitOrder(s, ctx, tx.partyA, tx.partyASold, tx.partyBSold).value;
      PartyKeys(s1, ctx, tx.partyB, tx.partyBSold, tx.partyASold);
    } else if tx.Transfer? {
      TransferKeys(s, tx.transfer, tx.fee);
    } else if tx.Mint? {
      var orders :=
        if ctx.uniqueMinting then SpendOnce(s.orders, ctx.pedersen(MINT_TREE_INDEX_SALT, tx.tokenId), 1).value
        else s.orders;
      UserVaultKeys(s.(orders := orders), 1, tx.starkKey, tx.tokenId, tx.vaultId, false);
    }
  }

  lemma {:induction false} BatchKeys(s: Ledger, ctx: Context, txs: seq<Transaction>, k: nat)
    requires ExecuteBatch(s, ctx, txs).Done? && k <= |txs|
    ensures var t := ExecuteBatch(s, ctx, txs).value;
      && KeysKept(s.vaults, t.vaults)
      && (k < |txs| ==>
            && (forall p :: HasParty(txs[k], p) ==> PartyVaultsIn(p, t.vaults))
            && (txs[k].Transfer? ==> TransferVaultsIn(txs[k].transfer, txs[k].fee, t.vaults)))
    decreases |txs|
  {
    hide ExecuteTransaction, HasParty;
    if txs != [] {
      var s1 := ExecuteTransaction(s, ctx, txs[0]).value;
      TransactionKeys(s, ctx, txs[0]);
      BatchKeys(s1, ctx, txs[1..], if k == 0 then 0 else k - 1);
    }
  }

  // ---- The other fields are checked ----

  /** The state in which transaction k runs. */
  lemma {:induction false} StateBefore(s: Ledger, ctx: Context, txs: seq<Transaction>, k: nat) returns (at: Ledger)
    requires ExecuteBatch(s, ctx, txs).Done? && k < |txs|
    ensures ExecuteTransaction(at, ctx, txs[k]).Done?
    decreases |txs|
  {
    hide ExecuteTransaction;
    at := s;
    if k > 0 { at := StateBefore(ExecuteTransaction(s, ctx, txs[0]).value, ctx, txs[1..], k - 1); }
  }

  lemma {:induction false} PartyIsChecked(s: Ledger, ctx: Context, tx: Transaction, p: Party)
    requires ExecuteTransaction(s, ctx, tx).Done? && HasParty(tx, p) && 0 <= ctx.globalExpiration
    ensures var m := OrderMessage31(p.order);
      && 0 <= m.amount0 < BALANCE_BOUND && 0 <= m.amount1 < BALANCE_BOUND
      && 0 <= m.nonce < DEX_NONCE_BOUND && 0 <= m.expiration < DEX_EXPIRATION_BOUND
  {
    hide ExecuteLimitOrder, LimitOrderChecks, OrderFeeOk, GetOrderHash;
    var s1 := ExecuteLimitOrder(s, ctx, tx.partyA, tx.partyASold, tx.partyBSold).value;
    PartyIsVerified(s, ctx, tx.partyA, tx.partyASold, tx.partyBSold);
    PartyIsVerified(s1, ctx, tx.partyB, tx.partyBSold, tx.partyASold);
    ChecksDecide(tx.partyA.order, ctx.globalExpiration, tx.partyASold, tx.partyBSold);
    ChecksDecide(tx.partyB.order, ctx.globalExpiration, tx.partyBSold, tx.partyASold);
  }

  lemma {:induction false} TransferIsChecked(s: Ledger, ctx: Context, tx: Transaction)
    requires tx.Transfer? && ExecuteTransaction(s, ctx, tx).Done? && 0 <= ctx.globalExpiration
    ensures 0 <= tx.transfer.amount < BALANCE_BOUND && 0 <= tx.transfer.base.nonce < DEX_NONCE_BOUND
    ensures 0 <= tx.transfer.base.expirationTimestamp < DEX_EXPIRATION_BOUND
  {
    hide MoveTransfer, TransferMessage, SpendOnce;
  }

  // ---- Which accepted messages are in range ----

  /** An accepted order without a fee meets the ranges of its message exactly when neither of its vaults
      is a rollup vault, if the batch fits the trees. */
  lemma {:induction false} AcceptedOrderFits(s: Ledger, ctx: Context, txs: seq<Transaction>, k: nat, p: Party)
    requires ExecuteBatch(s, ctx, txs).Done? && 0 <= ctx.globalExpiration
             && InTrees(ExecuteBatch(s, ctx, txs).value.vaults)
    requires k < |txs| && HasParty(txs[k], p)
    ensures Valid31(OrderMessage31(p.order)) <==>
            p.order.vaultSell < ROLLUP_VAULT_BIT && p.order.vaultBuy < ROLLUP_VAULT_BIT
  {
    hide ExecuteBatch, ExecuteTransaction, HasParty;
    BatchKeys(s, ctx, txs, k);
    var at := StateBefore(s, ctx, txs, k);
    PartyIsChecked(at, ctx, txs[k], p);
  }

  /** The same for an accepted transfer without a fee. */
  lemma {:induction false} AcceptedTransferFits(s: Ledger, ctx: Context, txs: seq<Transaction>, k: nat)
    requires ExecuteBatch(s, ctx, txs).Done? && 0 <= ctx.globalExpiration
             && InTrees(ExecuteBatch(s, ctx, txs).value.vaults)
    requires k < |txs| && txs[k].Transfer?
    ensures var t := txs[k].transfer;
      Valid31(TransferMessage31(t, txs[k].condition)) <==>
          t.senderVaultId < ROLLUP_VAULT_BIT && t.receiverVaultId < ROLLUP_VAULT_BIT
  {
    hide ExecuteBatch, ExecuteTransaction;
    BatchKeys(s, ctx, txs, k);
    var at := StateBefore(s, ctx, txs, k);
    TransferIsChecked(at, ctx, txs[k]);
  }

  // ---- What the accepted messages commit to ----

  /** The keys of the vault dictionary when both trees have at most 31 levels. */
  predicate InSmallTrees(vaults: Vaults) {
    forall i :: i in vaults ==> InTree(i)
  }

  lemma {:induction false} AcceptedOrderInTrees(s: Ledger, ctx: Context, txs: seq<Transaction>, k: nat, p: Party)
    requires ExecuteBatch(s, ctx, txs).Done? && 0 <= ctx.globalExpiration
             && InSmallTrees(ExecuteBatch(s, ctx, txs).value.vaults)
    requires k < |txs| && HasParty(txs[k], p)
    ensures InTrees31(OrderMessage31(p.order))
  {
    hide ExecuteBatch, ExecuteTransaction, HasParty;
    BatchKeys(s, ctx, txs, k);
    var at := StateBefore(s, ctx, txs, k);
    PartyIsChecked(at, ctx, txs[k], p);
  }

  lemma {:induction false} AcceptedTransferInTrees(s: Ledger, ctx: Context, txs: seq<Transaction>, k: nat)
    requires ExecuteBatch(s, ctx, txs).Done? && 0 <= ctx.globalExpiration
             && InSmallTrees(ExecuteBatch(s, ctx, txs).value.vaults)
    requires k < |txs| && txs[k].Transfer?
    ensures InTrees31(TransferMessage31(txs[k].transfer, txs[k].condition))
  {
    hide ExecuteBatch, ExecuteTransaction;
    BatchKeys(s, ctx, txs, k);
    var at := StateBefore(s, ctx, txs, k);
    TransferIsChecked(at, ctx, txs[k]);
  }

  /** Two orders without fee of an accepted batch, on trees of at most 31 levels, that sell from the same
      tree have equal hashes exactly when they are the same message; if only the first sells from a
      rollup vault, exactly when tokens agree and its word is ahead by WRAP. */
  lemma {:induction false} AcceptedOrdersCommit(s: Ledger, ctx: Context, txs: seq<Transaction>, j: nat, p: Party,
                                                k: nat, q: Party)
    requires ExecuteBatch(s, ctx, txs).Done? && 0 <= ctx.globalExpiration
             && InSmallTrees(ExecuteBatch(s, ctx, txs).value.vaults)
    requires j < |txs| && HasParty(txs[j], p) && k < |txs| && HasParty(txs[k], q) && p.fee.None? && q.fee.None?
    requires Injective(ctx.pedersen)
    ensures var a, b := OrderMessage31(p.order), OrderMessage31(q.order);
      var same := GetOrderHash(ctx.pedersen, p.order, false) == GetOrderHash(ctx.pedersen, q.order, false);
      && ((IsRollup(a.vault0) <==> IsRollup(b.vault0)) ==> (same <==> a == b))
      && (IsRollup(a.vault0) && !IsRollup(b.vault0) ==>
            (same <==> a.token0 == b.token0 && a.token1OrKey == b.token1OrKey && Word31(a) == Word31(b) + WRAP))
  {
    hide ExecuteBatch, HasParty, Word31, Packed31, HashOf, GetOrderHash;
    var a, b := OrderMessage31(p.order), OrderMessage31(q.order);
    AcceptedOrderInTrees(s, ctx, txs, j, p);
    AcceptedOrderInTrees(s, ctx, txs, k, q);
    OrderHashIs31(ctx.pedersen, p.order);
    OrderHashIs31(ctx.pedersen, q.order);
    InTreeHashesExact(ctx.pedersen, a, b);
    if IsRollup(a.vault0) <==> IsRollup(b.vault0) {
      SameTreeCommits(ctx.pedersen, a, b);
    } else if Partial31(ctx.pedersen, a) == Partial31(ctx.pedersen, b) {
      PartialDetermines(ctx.pedersen, a, b);
    }
  }

  /** The same of two transfers without fee that are both conditional or both not. */
  lemma {:induction false} AcceptedTransfersCommit(s: Ledger, ctx: Context, txs: seq<Transaction>, j: nat, k: nat)
    requires ExecuteBatch(s, ctx, txs).Done? && 0 <= ctx.globalExpiration
             && InSmallTrees(ExecuteBatch(s, ctx, txs).value.vaults)
    requires j < |txs| && k < |txs| && txs[j].Transfer? && txs[k].Transfer?
    requires txs[j].fee.None? && txs[k].fee.None? && (txs[j].condition == 0 <==> txs[k].condition == 0)
    requires Injective(ctx.pedersen)
    ensures var h, t, u := ctx.pedersen, txs[j].transfer, txs[k].transfer;
      var a, b := TransferMessage31(t, txs[j].condition), TransferMessage31(u, txs[k].condition);
      var same := TransferMessage(h, t, txs[j].condition, false) == TransferMessage(h, u, txs[k].condition, false);
      && ((IsRollup(a.vault0) <==> IsRollup(b.vault0)) ==> (same <==> a == b))
      && (IsRollup(a.vault0) && !IsRollup(b.vault0) ==>
            (same <==>
              && a.token0 == b.token0 && a.token1OrKey == b.token1OrKey && a.condition == b.condition
              && Word31(a) == Word31(b) + WRAP))
  {
    hide ExecuteBatch, Word31, Packed31, HashOf, TransferMessage;
    var h, t, u := ctx.pedersen, txs[j].transfer, txs[k].transfer;
    var a, b := TransferMessage31(t, txs[j].condition), TransferMessage31(u, txs[k].condition);
    AcceptedTransferInTrees(s, ctx, txs, j);
    AcceptedTransferInTrees(s, ctx, txs, k);
    TransferHashIs31(h, t, txs[j].condition);
    TransferHashIs31(h, u, txs[k].condition);
    InTreeHashesExact(h, a, b);
    if IsRollup(a.vault0) <==> IsRollup(b.vault0) {
      SameTreeCommits(h, a, b);
    } else if Partial31(h, a) == Partial31(h, b) {
      PartialDetermines(h, a, b);
    }
  }

  // ---- Messages with a fee ----

  lemma {:induction false} FeeLimitIsChecked(s: Ledger, ctx: Context, tx: Transaction, p: Party)
    requires ExecuteTransaction(s, ctx, tx).Done? && HasParty(tx, p) && p.fee.Some?
    ensures p.order.amountFee < BALANCE_BOUND
  {
    hide ExecuteLimitOrder, LimitOrderChecks, OrderFeeOk, GetOrderHash;
    var s1 := ExecuteLimitOrder(s, ctx, tx.partyA, tx.partyASold, tx.partyBSold).value;
    PartyIsVerified(s, ctx, tx.partyA, tx.partyASold, tx.partyBSold);
    PartyIsVerified(s1, ctx, tx.partyB, tx.partyBSold, tx.partyASold);
    FeeLimitBelow(p.fee.value.feeTaken, p.order.amountFee, if tx.partyA == p then tx.partyBSold else tx.partyASold,
                  p.order.amountBuy);
    if tx.partyB == p { FeeLimitBelow(p.fee.value.feeTaken, p.order.amountFee, tx.partyASold, p.order.amountBuy); }
  }

  lemma {:induction false} FeeLimitBelow(feeTaken: felt, feeLimit: felt, amountBought: int, orderBuy: int)
    requires OrderFeeOk(feeTaken, feeLimit, amountBought, orderBuy)
    ensures feeLimit < BALANCE_BOUND
  {
  }

  /** An accepted order with a fee, on trees of at most 31 levels, is in the ranges of its 64-bit message
      exactly when its fee limit is not negative. */
  lemma {:induction false} AcceptedFeeOrderFits(s: Ledger, ctx: Context, txs: seq<Transaction>, k: nat, p: Party)
    requires ExecuteBatch(s, ctx, txs).Done? && 0 <= ctx.globalExpiration
             && InSmallTrees(ExecuteBatch(s, ctx, txs).value.vaults)
    requires k < |txs| && HasParty(txs[k], p) && p.fee.Some?
    ensures ValidLimitFields(FieldsOf(p.order)) <==> 0 <= p.order.amountFee
  {
    hide ExecuteBatch, ExecuteTransaction, HasParty;
    BatchKeys(s, ctx, txs, k);
    var at := StateBefore(s, ctx, txs, k);
    PartyIsChecked(at, ctx, txs[k], p);
    FeeLimitIsChecked(at, ctx, txs[k], p);
  }

  /** An accepted transfer with a fee, on trees of at most 31 levels, is in the ranges of its message. */
  lemma {:induction false} AcceptedFeeTransferFits(s: Ledger, ctx: Context, txs: seq<Transaction>, k: nat)
    requires ExecuteBatch(s, ctx, txs).Done? && 0 <= ctx.globalExpiration
             && InSmallTrees(ExecuteBatch(s, ctx, txs).value.vaults)
    requires k < |txs| && txs[k].Transfer? && txs[k].fee.Some?
    ensures ValidTransferFields(FieldsOfTransfer(txs[k].transfer))
  {
    hide ExecuteBatch, ExecuteTransaction;
    BatchKeys(s, ctx, txs, k);
    var at := StateBefore(s, ctx, txs, k);
    TransferIsChecked(at, ctx, txs[k]);
    TransferLimitIsChecked(at, ctx, txs[k]);
  }

  lemma {:induction false} TransferLimitIsChecked(s: Ledger, ctx: Context, tx: Transaction)
    requires tx.Transfer? && ExecuteTransaction(s, ctx, tx).Done? && tx.fee.Some?
    ensures 0 <= tx.transfer.maxAmountFee < BALANCE_BOUND
  {
    hide UpdateUserVault, UpdateFeeVaults, TransferMessage, SpendOnce, TransferFeeOk;
    TransferFeeExact(tx.fee.value.feeTaken, tx.transfer.maxAmountFee);
  }
}
