/** Who may take from a vault of the spot exchange: over any batch an L2 vault loses units or its
    owner only to a transfer or order that its key signed and that names the vault, or to a
    modification. The fee of an order that asks for nothing is the one exception. */
module DexAuthorization {
  import opened Felt
  import opened Options
  import opened Dex
  import opened DexConservation
  import opened DexJournal

  /** A signed L2 order takes from the vault it sells from and from the one that pays its fee. */
  predicate PartyAuthorises(ctx: Context, p: Party, vault: int, key: int, tokenId: int) {
    var o := p.order;
    && !p.isL1 && o.base.publicKey == key
    && ctx.verify(GetOrderHash(ctx.pedersen, o, p.fee.Some?), key, o.base.signatureR, o.base.signatureS)
    && ((o.vaultSell == vault && o.assetIdSell == tokenId)
        || (p.fee.Some? && o.vaultFee == vault && o.assetIdFee == tokenId))
  }

  /** A signed transfer takes from the sender's vault and from the one that pays its fee. */
  predicate TransferAuthorises(ctx: Context, tx: Transaction, vault: int, key: int, tokenId: int)
    requires tx.Transfer?
  {
    var t := tx.transfer;
    && t.base.publicKey == key
    && ctx.verify(TransferMessage(ctx.pedersen, t, tx.condition, tx.fee.Some?), key, t.base.signatureR,
                  t.base.signatureS)
    && ((t.senderVaultId == vault && t.assetId == tokenId)
        || (tx.fee.Some? && t.srcFeeVaultId == vault && t.assetIdFee == tokenId))
  }

  /** The transaction may take from the vault of this key and token. */
  predicate Authorises(ctx: Context, tx: Transaction, vault: int, key: int, tokenId: int) {
    match tx
    case Settlement(a, b, _, _) => PartyAuthorises(ctx, a, vault, key, tokenId)
        || PartyAuthorises(ctx, b, vault, key, tokenId)
    case Transfer(_, _, _) => TransferAuthorises(ctx, tx, vault, key, tokenId)
    case Mint(_, _, _) => false
    case Modification(k, token, v, _, _) => k == key && token == tokenId && v == vault
    case FalseFullWithdrawal(_, _, _, _) => false
  }

  // ---- One party ----

  /** Every debit among the entries is one the party signed for. */
  predicate AllSigned(ctx: Context, p: Party, es: seq<Entry>) {
    forall k :: 0 <= k < |es| && es[k].diff < 0 ==> PartyAuthorises(ctx, p, es[k].vault, es[k].key, es[k].tokenId)
  }

  lemma {:induction false} PartyIsVerified(s: Ledger, ctx: Context, p: Party, sold: int, bought: int)
    requires ExecuteLimitOrder(s, ctx, p, sold, bought).Done?
    ensures p.isL1 || ctx.verify(GetOrderHash(ctx.pedersen, p.order, p.fee.Some?), p.order.base.publicKey,
                                 p.order.base.signatureR, p.order.base.signatureS)
    ensures LimitOrderChecks(p.order, ctx.globalExpiration, sold, bought)
    ensures p.fee.Some? ==> OrderFeeOk(p.fee.value.feeTaken, p.order.amountFee, bought, p.order.amountBuy)
  {
    hide LimitOrderChecks, GetOrderHash, UpdateUserVault, UpdateFeeVaults, OrderFeeOk, FulfillSell;
  }

  /** A caller can see that the fee flows from the payer: it is not negative, or the order asks for
      something. */
  predicate FeeFlowsOut(p: Party) {
    p.fee.Some? ==> 0 <= p.fee.value.feeTaken || p.order.amountBuy != 0
  }

  lemma {:induction false} AskedInRange(o: ExchangeOrder, globalExpiration: int, sold: int, bought: int)
    requires LimitOrderChecks(o, globalExpiration, sold, bought)
    ensures 0 <= o.amountBuy < BALANCE_BOUND
  {
    hide LimitOrderChecks;
    AskedChecks(o, globalExpiration, sold, bought);
  }

  lemma {:induction false} AskedChecks(o: ExchangeOrder, globalExpiration: int, sold: int, bought: int)
    requires LimitOrderChecks(o, globalExpiration, sold, bought)
    ensures IsNn(o.amountBuy) && IsNn(BALANCE_BOUND - 1 - o.amountBuy)
  {
    hide IsNn;
  }

  lemma {:induction false} AcceptedFee(p: Party, bought: felt)
    requires 0 <= bought < BALANCE_BOUND && 0 <= p.order.amountBuy < BALANCE_BOUND && p.fee.Some?
    requires OrderFeeOk(p.fee.value.feeTaken, p.order.amountFee, bought, p.order.amountBuy)
    ensures FeeFlowsOut(p) <==> 0 <= p.fee.value.feeTaken
  {
    hide OrderFeeOk;
    if p.order.amountBuy > 0 { FeeNonNegative(p.fee.value.feeTaken, p.order.amountFee, bought, p.order.amountBuy); }
  }

  lemma {:induction false} AllSignedConcat(ctx: Context, p: Party, a: seq<Entry>, b: seq<Entry>)
    ensures AllSigned(ctx, p, a + b) <==> AllSigned(ctx, p, a) && AllSigned(ctx, p, b)
  {
    hide PartyAuthorises;
    var es := a + b;
    assert forall k :: 0 <= k < |a| ==> es[k] == a[k];
    assert forall k :: 0 <= k < |b| ==> es[|a| + k] == b[k];
  }

  /** A verified L2 order signs for its own two sources. */
  lemma {:induction false} PartySignsItsVaults(ctx: Context, p: Party)
    requires p.isL1 || ctx.verify(GetOrderHash(ctx.pedersen, p.order, p.fee.Some?), p.order.base.publicKey,
                                  p.order.base.signatureR, p.order.base.signatureS)
    ensures var o := p.order;
      p.isL1 || (PartyAuthorises(ctx, p, o.vaultSell, o.base.publicKey, o.assetIdSell)
                 && (p.fee.Some? ==> PartyAuthorises(ctx, p, o.vaultFee, o.base.publicKey, o.assetIdFee)))
  {
    hide GetOrderHash;
  }

  lemma {:induction false} UserEntriesSigned(ctx: Context, p: Party, diff: int, key: int, tokenId: int, vault: int,
                                             onL1: bool)
    ensures AllSigned(ctx, p, UserEntries(diff, key, tokenId, vault, onL1)) <==>
            onL1 || 0 <= diff || PartyAuthorises(ctx, p, vault, key, tokenId)
  {
    hide PartyAuthorises;
    if !onL1 { assert UserEntries(diff, key, tokenId, vault, onL1)[0] == Entry(vault, key, tokenId, diff); }
  }

  /** The debits of an accepted order are all signed for if and only if its fee flows from the payer,
      or the order itself signs for the vault that the fee is meant for. */
  lemma {:induction false} PartyDebitsExact(s: Ledger, ctx: Context, p: Party, sold: felt, bought: felt)
    requires ExecuteLimitOrder(s, ctx, p, sold, bought).Done?
    requires 0 <= sold < BALANCE_BOUND && 0 <= bought < BALANCE_BOUND
    ensures AllSigned(ctx, p, PartyEntries(p, sold, bought)) <==>
            FeeFlowsOut(p)
            || PartyAuthorises(ctx, p, p.fee.value.destinationVaultId, p.fee.value.destinationStarkKey,
                               p.order.assetIdFee)
  {
    PartyIsVerified(s, ctx, p, sold, bought);
    hide ExecuteLimitOrder, LimitOrderChecks, OrderFeeOk, GetOrderHash, AllSigned, UserEntries;
    PartySignsItsVaults(ctx, p);
    hide PartyAuthorises;
    var o := p.order;
    var sell := UserEntries(-sold, o.base.publicKey, o.assetIdSell, o.vaultSell, p.isL1);
    var buy := UserEntries(bought, o.base.publicKey, o.assetIdBuy, o.vaultBuy, p.isL1);
    UserEntriesSigned(ctx, p, -sold, o.base.publicKey, o.assetIdSell, o.vaultSell, p.isL1);
    UserEntriesSigned(ctx, p, bought, o.base.publicKey, o.assetIdBuy, o.vaultBuy, p.isL1);
    AllSignedConcat(ctx, p, sell, buy);
    if p.fee.Some? {
      var f := p.fee.value;
      AskedInRange(o, ctx.globalExpiration, sold, bought);
      AcceptedFee(p, bought);
      UserEntriesSigned(ctx, p, -f.feeTaken, o.base.publicKey, o.assetIdFee, o.vaultFee, p.isL1);
      UserEntriesSigned(ctx, p, f.feeTaken, f.destinationStarkKey, o.assetIdFee, f.destinationVaultId, false);
      AllSignedConcat(ctx, p, UserEntries(-f.feeTaken, o.base.publicKey, o.assetIdFee, o.vaultFee, p.isL1),
                      UserEntries(f.feeTaken, f.destinationStarkKey, o.assetIdFee, f.destinationVaultId, false));
      AllSignedConcat(ctx, p, sell + buy, FeeEntries(o.base.publicKey, o.assetIdFee, o.vaultFee, f, p.isL1));
    } else {
      assert PartyEntries(p, sold, bought) == sell + buy;
    }
  }

  // ---- One transaction ----

  predicate FeesFlowOut(tx: Transaction) {
    tx.Settlement? ==> FeeFlowsOut(tx.partyA) && FeeFlowsOut(tx.partyB)
  }

  lemma {:induction false} SettlementDebits(s: Ledger, ctx: Context, tx: Transaction, v: VaultState, vault: int)
    requires tx.Settlement? && ExecuteSettlement(s, ctx, tx).Done? && FeesFlowOut(tx)
    requires Debits(Entries(s, tx), v, vault)
    ensures Authorises(ctx, tx, vault, v.starkKey, v.tokenId)
  {
    hide ExecuteLimitOrder, PartyEntries, PartyAuthorises, FeeFlowsOut;
    var s1 := ExecuteLimitOrder(s, ctx, tx.partyA, tx.partyASold, tx.partyBSold).value;
    PartyDebitsExact(s, ctx, tx.partyA, tx.partyASold, tx.partyBSold);
    PartyDebitsExact(s1, ctx, tx.partyB, tx.partyBSold, tx.partyASold);
    var a := PartyEntries(tx.partyA, tx.partyASold, tx.partyBSold);
    var b := PartyEntries(tx.partyB, tx.partyBSold, tx.partyASold);
    var es: seq<Entry> := a + b;
    var k :| 0 <= k < |es| && es[k].diff < 0 && es[k].vault == vault && es[k].key == v.starkKey
        && es[k].tokenId == v.tokenId;
    if k < |a| { assert es[k] == a[k]; } else { assert es[k] == b[k - |a|]; }
  }

  lemma {:induction false} TransferDebits(s: Ledger, ctx: Context, tx: Transaction, v: VaultState, vault: int)
    requires tx.Transfer? && ExecuteTransfer(s, ctx, tx).Done?
    requires Debits(Entries(s, tx), v, vault)
    ensures Authorises(ctx, tx, vault, v.starkKey, v.tokenId)
  {
    hide UpdateUserVault, UpdateFeeVaults, TransferMessage, SpendOnce;
    var t, es := tx.transfer, Entries(s, tx);
    var moved := UserEntries(-t.amount, t.base.publicKey, t.assetId, t.senderVaultId, false)
                 + UserEntries(t.amount, t.receiverPublicKey, t.assetId, t.receiverVaultId, false);
    var k :| 0 <= k < |es| && es[k].diff < 0 && es[k].vault == vault && es[k].key == v.starkKey
        && es[k].tokenId == v.tokenId;
    if tx.fee.Some? {
      TransferFeeExact(tx.fee.value.feeTaken, t.maxAmountFee);
      assert es == moved + FeeEntries(t.base.publicKey, t.assetIdFee, t.srcFeeVaultId, tx.fee.value, false);
    } else {
      assert es == moved;
    }
  }

  /** Every debit that an accepted transaction books is one that it authorises. */
  lemma {:induction false} DebitsAuthorised(s: Ledger, ctx: Context, tx: Transaction, v: VaultState, vault: int)
    requires ExecuteTransaction(s, ctx, tx).Done? && FeesFlowOut(tx) && Debits(Entries(s, tx), v, vault)
    ensures Authorises(ctx, tx, vault, v.starkKey, v.tokenId)
  {
    hide ExecuteSettlement, ExecuteTransfer, PartyAuthorises, TransferAuthorises, FeeFlowsOut;
    if tx.Settlement? {
      SettlementDebits(s, ctx, tx, v, vault);
    } else if tx.Transfer? {
      TransferDebits(s, ctx, tx, v, vault);
    }
  }

  lemma {:induction false} StepGuards(s: Ledger, ctx: Context, tx: Transaction, vault: int)
    requires ValidLedger(s) && ExecuteTransaction(s, ctx, tx).Done? && FeesFlowOut(tx)
    requires VaultAt(s.vaults, vault).balance > 0
    ensures var v := VaultAt(s.vaults, vault);
      Authorises(ctx, tx, vault, v.starkKey, v.tokenId)
          || Keeps(v, VaultAt(ExecuteTransaction(s, ctx, tx).value.vaults, vault))
  {
    hide ExecuteTransaction, Entries, Authorises, FeesFlowOut;
    TransactionBooked(s, ctx, tx);
    if Debits(Entries(s, tx), VaultAt(s.vaults, vault), vault) {
      DebitsAuthorised(s, ctx, tx, VaultAt(s.vaults, vault), vault);
    }
  }

  // ---- Whole batches ----

  predicate AllFeesFlowOut(txs: seq<Transaction>) {
    forall k :: 0 <= k < |txs| ==> FeesFlowOut(txs[k])
  }

  predicate SomeAuthorises(ctx: Context, txs: seq<Transaction>, vault: int, key: int, tokenId: int) {
    exists k :: 0 <= k < |txs| && Authorises(ctx, txs[k], vault, key, tokenId)
  }

  /** Over any batch in which no order that asks for nothing pays a negative fee: an L2 vault keeps its
      key, its token and its units, unless some transaction carries a verified signature of its key
      that names the vault, or is a modification of it. */
  lemma {:induction false} VaultIsGuarded(s: Ledger, ctx: Context, txs: seq<Transaction>, vault: int)
    requires ValidLedger(s) && ExecuteBatch(s, ctx, txs).Done? && AllFeesFlowOut(txs)
    requires VaultAt(s.vaults, vault).balance > 0
    ensures var v := VaultAt(s.vaults, vault);
      SomeAuthorises(ctx, txs, vault, v.starkKey, v.tokenId)
          || Keeps(v, VaultAt(ExecuteBatch(s, ctx, txs).value.vaults, vault))
    decreases |txs|
  {
    hide ExecuteTransaction, Authorises, FeesFlowOut, ValidLedger;
    if txs != [] {
      var s1 := ExecuteTransaction(s, ctx, txs[0]).value;
      var v := VaultAt(s.vaults, vault);
      StepGuards(s, ctx, txs[0], vault);
      if !Authorises(ctx, txs[0], vault, v.starkKey, v.tokenId) {
        StepStaysValid(s, ctx, txs[0]);
        VaultIsGuarded(s1, ctx, txs[1..], vault);
        if SomeAuthorises(ctx, txs[1..], vault, v.starkKey, v.tokenId) {
          var k :| 0 <= k < |txs[1..]| && Authorises(ctx, txs[1..][k], vault, v.starkKey, v.tokenId);
          assert txs[k + 1] == txs[1..][k];
        }
      }
    }
  }

  lemma {:induction false} StepStaysValid(s: Ledger, ctx: Context, tx: Transaction)
    requires ValidLedger(s) && ExecuteTransaction(s, ctx, tx).Done?
    ensures ValidLedger(ExecuteTransaction(s, ctx, tx).value)
  {
    hide ExecuteTransaction;
    StepConserves(s, ctx, tx);
  }
}
