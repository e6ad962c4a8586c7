/** The spot exchange batch as the program runs it: vault and order dictionaries and outputs updated
    in place. Every method is tied to the step function of module Dex, so that conservation and the
    guarantees for signed orders hold of the machine.

    A method returns false where a Cairo assert fails. Such an execution does not exist, and the
    fields it leaves behind mean nothing. */
module DexMachine {
  import opened Felt
  import opened Options
  import opened Dex
  import opened DexConservation

  class Exchange {
    const ctx: Context
    var vaults: Vaults
    var l1Vaults: L1Vaults
    var orders: map<int, int>
    var modifications: seq<ModificationOutput>
    var conditions: seq<int>
    var l1Messages: seq<L1OrderMessage>

    function Snapshot(): Ledger
      reads this
    {
      Ledger(vaults, l1Vaults, orders, modifications, conditions, l1Messages)
    }

    constructor (s: Ledger, context: Context)
      ensures Snapshot() == s && ctx == context
    {
      ctx := context;
      vaults, l1Vaults, orders := s.vaults, s.l1Vaults, s.orders;
      modifications, conditions, l1Messages := s.modifications, s.conditions, s.l1Messages;
    }

    /** l2_vault_update_balances. */
    method WriteVault(before: int, after: int, starkKey: int, tokenId: int, index: int) returns (ok: bool)
      modifies this`vaults
      ensures var r := UpdateBalances(old(vaults), before, after, starkKey, tokenId, index);
        && (ok <==> r.Done?)
        && vaults == if ok then r.value else old(vaults)
    {
      if VaultAt(vaults, index) != GetVaultState(starkKey, tokenId, before) { return false; }
      vaults := vaults[index := GetVaultState(starkKey, tokenId, after)];
      return true;
    }

    /** l2_vault_update_diff. */
    method AddToVault(diff: int, starkKey: int, tokenId: int, index: int) returns (ok: bool)
      modifies this`vaults
      ensures var r := UpdateDiff(old(vaults), diff, starkKey, tokenId, index);
        && (ok <==> r.Done?)
        && vaults == if ok then r.value else old(vaults)
    {
      hide UpdateBalances;
      var before := VaultAt(vaults, index).balance;
      var after := before + diff;
      if !IsNn(after) || !IsNn(BALANCE_BOUND - 1 - after) { return false; }
      ok := WriteVault(before, after, starkKey, tokenId, index);
    }

    /** l1_vault_update_diff. */
    method AddToL1Vault(diff: int, ethKey: int, tokenId: int, vaultIndex: int) returns (ok: bool)
      modifies this`l1Vaults
      ensures var r := UpdateL1Diff(old(l1Vaults), diff, KeyOfL1(ethKey, tokenId, vaultIndex));
        && (ok <==> r.Done?)
        && l1Vaults == if ok then r.value else old(l1Vaults)
    {
      var key := KeyOfL1(ethKey, tokenId, vaultIndex);
      if key !in l1Vaults { return false; }
      var before := l1Vaults[key];
      if !IsNnLe(before, BALANCE_BOUND - 1) { return false; }
      var after := before + diff;
      if !IsNnLe(after, BALANCE_BOUND - 1) { return false; }
      l1Vaults := l1Vaults[key := after];
      return true;
    }

    /** update_fee_src_vault, and every other update that goes to an L1 or an L2 vault. */
    method AddToUserVault(diff: int, key: int, tokenId: int, vaultIndex: int, onL1: bool) returns (ok: bool)
      modifies this`vaults, this`l1Vaults
      ensures var r := UpdateUserVault(old(Snapshot()), diff, key, tokenId, vaultIndex, onL1);
        && (ok <==> r.Done?)
        && Snapshot() == if ok then r.value else old(Snapshot())
    {
      hide UpdateDiff, UpdateL1Diff, KeyOfL1;
      if onL1 {
        ok := AddToL1Vault(diff, key, tokenId, vaultIndex);
      } else {
        ok := AddToVault(diff, key, tokenId, vaultIndex);
      }
    }

    /** update_fee_vaults. */
    method PayFee(userKey: int, tokenId: int, sourceVault: int, fee: FeeInfo, fromL1: bool) returns (ok: bool)
      modifies this`vaults, this`l1Vaults
      ensures var r := UpdateFeeVaults(old(Snapshot()), userKey, tokenId, sourceVault, fee, fromL1);
        && (ok <==> r.Done?)
        && (ok ==> Snapshot() == r.value)
    {
      hide UpdateUserVault;
      ok := AddToUserVault(-fee.feeTaken, userKey, tokenId, sourceVault, fromL1);
      if !ok { return; }
      ok := AddToUserVault(fee.feeTaken, fee.destinationStarkKey, tokenId, fee.destinationVaultId, false);
    }

    /** update_vaults_and_verify_signature. */
    method UpdateVaultsAndVerifySignature(o: ExchangeOrder, isL1: bool, sold: int, bought: int,
                                          hash: int) returns (ok: bool)
      modifies this
      ensures var r := UpdateVaultsAndVerify(old(Snapshot()), ctx, o, isL1, sold, bought, hash);
        && (ok <==> r.Done?)
        && (ok ==> Snapshot() == r.value)
    {
      hide UpdateUserVault;
      if isL1 {
        var message := L1OrderMessage(o.base.publicKey, FieldsOf(o));
        if message !in l1Messages { l1Messages := l1Messages + [message]; }
      }
      ok := AddToUserVault(-sold, o.base.publicKey, o.assetIdSell, o.vaultSell, isL1);
      if !ok { return; }
      ok := AddToUserVault(bought, o.base.publicKey, o.assetIdBuy, o.vaultBuy, isL1);
      if !ok { return; }
      ok := isL1 || ctx.verify(hash, o.base.publicKey, o.base.signatureR, o.base.signatureS);
    }

    /** execute_limit_order. */
    method FillLimitOrder(p: Party, sold: int, bought: int) returns (ok: bool)
      modifies this
      ensures var r := ExecuteLimitOrder(old(Snapshot()), ctx, p, sold, bought);
        && (ok <==> r.Done?)
        && (ok ==> Snapshot() == r.value)
    {
      hide LimitOrderChecks, GetOrderHash, UpdateVaultsAndVerify, OrderFeeOk, UpdateFeeVaults;
      var o := p.order;
      if !LimitOrderChecks(o, ctx.globalExpiration, sold, bought) { return false; }
      var hash := GetOrderHash(ctx.pedersen, o, p.fee.Some?);
      var fulfilled := FulfilledAt(orders, hash) + sold;
      if !(0 <= hash < ORDER_ID_BOUND) || !IsNn(o.amountSell - fulfilled) { return false; }
      orders := orders[hash := fulfilled];
      ok := UpdateVaultsAndVerifySignature(o, p.isL1, sold, bought, hash);
      if !ok { return; }
      if p.fee.Some? {
        if !OrderFeeOk(p.fee.value.feeTaken, o.amountFee, bought, o.amountBuy) { return false; }
        ok := PayFee(o.base.publicKey, o.assetIdFee, o.vaultFee, p.fee.value, p.isL1);
      }
    }

    /** execute_settlement: party A, then party B. */
    method Settle(tx: Transaction) returns (ok: bool)
      requires tx.Settlement?
      modifies this
      ensures var r := ExecuteSettlement(old(Snapshot()), ctx, tx);
        && (ok <==> r.Done?)
        && (ok ==> Snapshot() == r.value)
    {
      hide ExecuteLimitOrder, IsNn;
      if !IsNn(tx.partyASold) || !IsNn(BALANCE_BOUND - 1 - tx.partyASold) { return false; }
      if !IsNn(tx.partyBSold) || !IsNn(BALANCE_BOUND - 1 - tx.partyBSold) { return false; }
      if tx.partyA.order.assetIdBuy != tx.partyB.order.assetIdSell { return false; }
      if tx.partyB.order.assetIdBuy != tx.partyA.order.assetIdSell { return false; }
      ok := FillLimitOrder(tx.partyA, tx.partyASold, tx.partyBSold);
      if !ok { return; }
      ok := FillLimitOrder(tx.partyB, tx.partyBSold, tx.partyASold);
    }

    /** execute_transfer. */
    method TransferUnits(tx: Transaction) returns (ok: bool)
      requires tx.Transfer?
      modifies this
      ensures var r := ExecuteTransfer(old(Snapshot()), ctx, tx);
        && (ok <==> r.Done?)
        && (ok ==> Snapshot() == r.value)
    {
      hide UpdateUserVault, UpdateFeeVaults, TransferChecks, TransferMessage, TransferFeeOk;
      var t := tx.transfer;
      if !TransferChecks(t, ctx.globalExpiration) { return false; }
      ok := AddToUserVault(-t.amount, t.base.publicKey, t.assetId, t.senderVaultId, false);
      if !ok { return; }
      ok := AddToUserVault(t.amount, t.receiverPublicKey, t.assetId, t.receiverVaultId, false);
      if !ok { return; }
      if tx.fee.Some? {
        if !TransferFeeOk(tx.fee.value.feeTaken, t.maxAmountFee) { return false; }
        ok := PayFee(t.base.publicKey, t.assetIdFee, t.srcFeeVaultId, tx.fee.value, false);
        if !ok { return; }
      }
      var hash := TransferMessage(ctx.pedersen, t, tx.condition, tx.fee.Some?);
      if !ctx.verify(hash, t.base.publicKey, t.base.signatureR, t.base.signatureS) { return false; }
      if !(0 <= hash < ORDER_ID_BOUND) { return false; }
      if FulfilledAt(orders, hash) != 0 { return false; }
      orders := orders[hash := t.amount];
      if tx.condition != 0 { conditions := conditions + [tx.condition]; }
      return true;
    }

    /** execute_offchain_minting. */
    method MintUnit(tx: Transaction) returns (ok: bool)
      requires tx.Mint?
      modifies this
      ensures var r := ExecuteMint(old(Snapshot()), ctx, tx);
        && (ok <==> r.Done?)
        && (ok ==> Snapshot() == r.value)
    {
      hide UpdateUserVault;
      if (tx.tokenId - MINTING_BIT) % P >= MINTABLE_ASSET_ID_BOUND { return false; }
      if ctx.uniqueMinting {
        var index := ctx.pedersen(MINT_TREE_INDEX_SALT, tx.tokenId);
        if FulfilledAt(orders, index) != 0 { return false; }
        orders := orders[index := 1];
      }
      ok := AddToUserVault(1, tx.starkKey, tx.tokenId, tx.vaultId, false);
    }

    /** execute_modification. */
    method Modify(tx: Transaction) returns (ok: bool)
      requires tx.Modification?
      modifies this
      ensures var r := ExecuteModification(old(Snapshot()), tx);
        && (ok <==> r.Done?)
        && (ok ==> Snapshot() == r.value)
    {
      hide IsNn, ActionWord, UpdateBalances;
      var before := VaultAt(vaults, tx.vaultIndex).balance;
      var after := tx.balanceAfter;
      if !IsNn(before) || !IsNn(BALANCE_BOUND - 1 - before) { return false; }
      if !IsNn(after) || !IsNn(BALANCE_BOUND - 1 - after) { return false; }
      if !IsNn(tx.vaultIndex) || !IsNn(VAULT_SHIFT - 1 - tx.vaultIndex) { return false; }
      if tx.isFullWithdrawal && after != 0 { return false; }
      var action := ActionWord(tx.isFullWithdrawal, tx.vaultIndex, after - before);
      modifications := modifications + [ModificationOutput(tx.starkKey, tx.tokenId, action)];
      ok := WriteVault(before, after, tx.starkKey, tx.tokenId, tx.vaultIndex);
    }

    /** execute_false_full_withdrawal. */
    method RefuseFullWithdrawal(tx: Transaction) returns (ok: bool)
      requires tx.FalseFullWithdrawal?
      modifies this
      ensures var r := ExecuteFalseFullWithdrawal(old(Snapshot()), tx);
        && (ok <==> r.Done?)
        && (ok ==> Snapshot() == r.value)
    {
      hide UpdateBalances;
      var before := VaultAt(vaults, tx.vaultIndex).balance;
      var action := tx.vaultIndex * BALANCE_SHIFT + BALANCE_BOUND + FULL_WITHDRAWAL_SHIFT;
      modifications := modifications + [ModificationOutput(tx.requesterStarkKey, 0, action)];
      ok := WriteVault(before, before, tx.starkKey, tx.tokenId, tx.vaultIndex);
      if tx.requesterStarkKey == tx.starkKey { return false; }
    }

    /** execute_batch: the first transaction, then the rest. */
    method Run(txs: seq<Transaction>) returns (ok: bool)
      modifies this
      ensures var r := ExecuteBatch(old(Snapshot()), ctx, txs);
        && (ok <==> r.Done?)
        && (ok ==> Snapshot() == r.value)
      ensures ok && ValidLedger(old(Snapshot())) ==> Conserves(old(Snapshot()), Snapshot(), txs)
      decreases |txs|
    {
      hide ExecuteSettlement, ExecuteTransfer, ExecuteMint, ExecuteModification, ExecuteFalseFullWithdrawal, Conserves,
        ValidLedger;
      ghost var start := Snapshot();
      if txs == [] {
        ok := true;
      } else {
        match txs[0] {
          case Settlement(_, _, _, _) => ok := Settle(txs[0]);
          case Transfer(_, _, _) => ok := TransferUnits(txs[0]);
          case Mint(_, _, _) => ok := MintUnit(txs[0]);
          case Modification(_, _, _, _, _) => ok := Modify(txs[0]);
          case FalseFullWithdrawal(_, _, _, _) => ok := RefuseFullWithdrawal(txs[0]);
        }
        if ok { ok := Run(txs[1..]); }
      }
      if ok && ValidLedger(start) { BatchConserves(start, ctx, txs); }
    }
  }
}
