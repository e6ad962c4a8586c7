/** Concrete batches of the spot exchange at the edges of its guarantees: a transfer of nothing that
    pays its fee twice, and an order that asks for nothing and is paid by a vault nobody signed for. */
module DexExamples {
  import opened Felt
  import opened Options
  import opened MessageHashes
  import opened Dex
  import opened DexConservation
  import opened DexFills
  import opened DexAuthorization
  import opened DexMessages
  import opened DexRollupMessages

  const FEE_TOKEN: int := 23
  const OWNER: int := 1

  function ContextOf(h: PairHash, verify: Verifier): Context {
    Context(false, 0, h, verify)
  }

  function Vault(key: int, balance: int): VaultState {
    VaultState(key, FEE_TOKEN, balance)
  }

  /** One L2 update of a vault whose balance stays in range. */
  lemma {:induction false} VaultUpdated(s: Ledger, diff: felt, key: int, tokenId: int, vault: int, balance: int)
    requires VaultAt(s.vaults, vault) == GetVaultState(key, tokenId, balance)
    requires 0 <= balance < BALANCE_BOUND && 0 <= balance + diff < BALANCE_BOUND
    ensures UpdateUserVault(s, diff, key, tokenId, vault, false)
         == Done(s.(vaults := s.vaults[vault := GetVaultState(key, tokenId, balance + diff)]))
  {
    assert VaultAt(s.vaults, vault).balance == balance;
  }

  // ---- A transfer of nothing ----

  const NOTHING := ExchangeTransfer(OrderBase(0, OWNER, 0, 0, 0), 3, 2, 4, 0, FEE_TOKEN, 1, FEE_TOKEN, 5)
  const FIVE := FeeInfo(5, 2, 2)
  const TRANSFER := Transfer(NOTHING, 0, Some(FIVE))
  const PAYER := Ledger(map[1 := Vault(OWNER, 10)], map[], map[], [], [], [])

  lemma {:induction false} NothingMoves(s: Ledger, balance: int)
    requires VaultAt(s.vaults, 1) == Vault(OWNER, balance) && 5 <= balance < 100
    requires VaultAt(s.vaults, 3) == EMPTY_VAULT && VaultAt(s.vaults, 4) == EMPTY_VAULT
    requires VaultAt(s.vaults, 2) == EMPTY_VAULT
             || (VaultAt(s.vaults, 2).starkKey == 2 && VaultAt(s.vaults, 2).tokenId == FEE_TOKEN
                 && 0 < VaultAt(s.vaults, 2).balance < 100)
    ensures MoveTransfer(s, NOTHING, Some(FIVE)).Done?
    ensures var t := MoveTransfer(s, NOTHING, Some(FIVE)).value;
      && VaultAt(t.vaults, 1) == GetVaultState(OWNER, FEE_TOKEN, balance - 5)
      && VaultAt(t.vaults, 2) == Vault(2, VaultAt(s.vaults, 2).balance + 5)
      && VaultAt(t.vaults, 3) == EMPTY_VAULT && VaultAt(t.vaults, 4) == EMPTY_VAULT
  {
    hide UpdateUserVault;
    VaultUpdated(s, 0, OWNER, FEE_TOKEN, 3, 0);
    var s1 := s.(vaults := s.vaults[3 := EMPTY_VAULT]);
    VaultUpdated(s1, 0, 2, FEE_TOKEN, 4, 0);
    var s2 := s1.(vaults := s1.vaults[4 := EMPTY_VAULT]);
    VaultUpdated(s2, -5, OWNER, FEE_TOKEN, 1, balance);
    var s3 := s2.(vaults := s2.vaults[1 := GetVaultState(OWNER, FEE_TOKEN, balance - 5)]);
    VaultUpdated(s3, 5, 2, FEE_TOKEN, 2, VaultAt(s.vaults, 2).balance);
  }

  /** One signed transfer of nothing with a fee limit of five runs twice in a batch and takes ten. */
  lemma {:induction false} TransferOfNothingRepeats(h: PairHash, verify: Verifier)
    requires var hash := TransferMessage(h, NOTHING, 0, true); 0 <= hash < ORDER_ID_BOUND && verify(hash, OWNER, 0, 0)
    ensures ValidLedger(PAYER)
    ensures var r := ExecuteBatch(PAYER, ContextOf(h, verify), [TRANSFER, TRANSFER]);
      r.Done? && VaultAt(PAYER.vaults, 1).balance == 10 && VaultAt(r.value.vaults, 1) == EMPTY_VAULT
  {
    hide TransferMessage, MoveTransfer;
    var ctx := ContextOf(h, verify);
    NothingMoves(PAYER, 10);
    MoveKeepsOrders(PAYER, NOTHING, Some(FIVE));
    var s1 := ExecuteTransaction(PAYER, ctx, TRANSFER).value;
    NothingMoves(s1, 5);
    TransferRepeats(PAYER, ctx, TRANSFER);
    assert [TRANSFER, TRANSFER][1..] == [TRANSFER] && [TRANSFER][1..] == [];
    assert ExecuteBatch(s1, ctx, [TRANSFER]) == ExecuteTransaction(s1, ctx, TRANSFER);
  }

  // ---- An order that asks for nothing ----

  const ASKS_NOTHING := ExchangeOrder(OrderBase(0, OWNER, 0, 0, 0), 0, 0, 0, 22, 21, FEE_TOKEN, 2, 1, 3)
  const OTHER_ORDER := ExchangeOrder(OrderBase(0, 2, 0, 0, 0), 0, 0, 0, 21, 22, FEE_TOKEN, 6, 5, 7)
  const NEGATIVE_FEE := FeeInfo(-100, 4, 9)
  const SETTLEMENT := Settlement(Party(ASKS_NOTHING, false, Some(NEGATIVE_FEE)), Party(OTHER_ORDER, false, None), 0, 0)
  const HOLDER := Ledger(map[4 := Vault(9, 100)], map[], map[], [], [], [])

  lemma {:induction false} NegativeFeeAccepted()
    ensures OrderFeeOk(-100, 0, 0, 0)
  {
    FeeUnboundedBelow(-100, 0, 0);
  }

  lemma {:induction false} FirstParty(h: PairHash, verify: Verifier)
    requires var hash := GetOrderHash(h, ASKS_NOTHING, true); 0 <= hash < ORDER_ID_BOUND && verify(hash, OWNER, 0, 0)
    ensures var r := ExecuteLimitOrder(HOLDER, ContextOf(h, verify), SETTLEMENT.partyA, 0, 0);
      && r.Done?
      && r.value.orders == map[GetOrderHash(h, ASKS_NOTHING, true) := 0]
      && r.value.vaults == map[4 := EMPTY_VAULT, 1 := EMPTY_VAULT, 2 := EMPTY_VAULT, 3 := Vault(OWNER, 100)]
  {
    hide GetOrderHash, OrderFeeOk, UpdateUserVault;
    NegativeFeeAccepted();
    var s0 := HOLDER.(orders := map[GetOrderHash(h, ASKS_NOTHING, true) := 0]);
    VaultUpdated(s0, 0, OWNER, 21, 1, 0);
    var s1 := s0.(vaults := s0.vaults[1 := EMPTY_VAULT]);
    VaultUpdated(s1, 0, OWNER, 22, 2, 0);
    var s2 := s1.(vaults := s1.vaults[2 := EMPTY_VAULT]);
    VaultUpdated(s2, 100, OWNER, FEE_TOKEN, 3, 0);
    VaultUpdated(s2.(vaults := s2.vaults[3 := Vault(OWNER, 100)]), -100, 9, FEE_TOKEN, 4, 100);
  }

  lemma {:induction false} SecondParty(s: Ledger, h: PairHash, verify: Verifier)
    requires var hash := GetOrderHash(h, OTHER_ORDER, false);
      && 0 <= hash < ORDER_ID_BOUND
      && verify(hash, 2, 0, 0)
      && FulfilledAt(s.orders, hash) == 0
    requires VaultAt(s.vaults, 5) == EMPTY_VAULT && VaultAt(s.vaults, 6) == EMPTY_VAULT
    ensures var r := ExecuteLimitOrder(s, ContextOf(h, verify), SETTLEMENT.partyB, 0, 0);
      && r.Done?
      && r.value.vaults == s.vaults[5 := EMPTY_VAULT][6 := EMPTY_VAULT]
  {
    hide GetOrderHash;
  }

  /** Under a verifier that accepts no signature of key 9, a settlement of two orders that sell and buy
      nothing empties the vault of key 9 into the fee vault of the first order. Nothing in the batch
      authorises it. */
  lemma {:induction false} UnsignedVaultPays(h: PairHash, verify: Verifier)
    requires var hash := GetOrderHash(h, ASKS_NOTHING, true); 0 <= hash < ORDER_ID_BOUND && verify(hash, OWNER, 0, 0)
    requires var hash := GetOrderHash(h, OTHER_ORDER, false); 0 <= hash < ORDER_ID_BOUND && verify(hash, 2, 0, 0)
    requires forall m, r, s :: !verify(m, 9, r, s)
    ensures ValidLedger(HOLDER) && !AllFeesFlowOut([SETTLEMENT])
    ensures var r := ExecuteBatch(HOLDER, ContextOf(h, verify), [SETTLEMENT]);
      && r.Done?
      && VaultAt(HOLDER.vaults, 4) == Vault(9, 100) && VaultAt(r.value.vaults, 4) == EMPTY_VAULT
      && VaultAt(HOLDER.vaults, 3) == EMPTY_VAULT && VaultAt(r.value.vaults, 3) == Vault(OWNER, 100)
    ensures !SomeAuthorises(ContextOf(h, verify), [SETTLEMENT], 4, 9, FEE_TOKEN)
  {
    hide GetOrderHash, ExecuteLimitOrder;
    var ctx := ContextOf(h, verify);
    FirstParty(h, verify);
    var s1 := ExecuteLimitOrder(HOLDER, ctx, SETTLEMENT.partyA, 0, 0).value;
    SecondParty(s1, h, verify);
    assert !FeesFlowOut([SETTLEMENT][0]);
    assert [SETTLEMENT][1..] == [];
  }

  // ---- An order from a rollup vault ----

  const SOLD_TOKEN: int := 21
  const BOUGHT_TOKEN: int := 22
  const ROLLUP_VAULT: int := ROLLUP_VAULT_BIT + 277

  /** The order that is signed: 100 units of validium vault 5 for 200 units into vault 7. */
  const SIGNED := ExchangeOrder(OrderBase(9, OWNER, 3000, 0, 0), 200, 100, 0, BOUGHT_TOKEN, SOLD_TOKEN, 0, 7, 5, 0)
  /** The order that is run: the same from a rollup vault, with the next nonce. */
  const ROLLED := ExchangeOrder(OrderBase(10, OWNER, 3000, 0, 0), 200, 100, 0, BOUGHT_TOKEN, SOLD_TOKEN, 0, 7,
                                ROLLUP_VAULT, 0)
  const COUNTER := ExchangeOrder(OrderBase(0, 2, 3000, 0, 0), 100, 200, 0, SOLD_TOKEN, BOUGHT_TOKEN, 0, 9, 8, 0)
  const TRADE := Settlement(Party(ROLLED, false, None), Party(COUNTER, false, None), 100, 200)
  const TRADERS := Ledger(map[ROLLUP_VAULT := VaultState(OWNER, SOLD_TOKEN, 100),
                              8 := VaultState(2, BOUGHT_TOKEN, 200)], map[], map[], [], [], [])

  lemma {:induction false} OneHash(h: PairHash)
    ensures GetOrderHash(h, ROLLED, false) == GetOrderHash(h, SIGNED, false)
    ensures Valid31(OrderMessage31(SIGNED)) && InTrees31(OrderMessage31(ROLLED))
  {
    hide HashOf;
    OrderHashIs31(h, SIGNED);
    OrderHashIs31(h, ROLLED);
    RollupMeetsValidium(h, OrderMessage31(ROLLED));
  }

  lemma {:induction false} SellerFills(h: PairHash, verify: Verifier)
    requires var hash := GetOrderHash(h, SIGNED, false); 0 <= hash < ORDER_ID_BOUND && verify(hash, OWNER, 0, 0)
    ensures var r := ExecuteLimitOrder(TRADERS, ContextOf(h, verify), TRADE.partyA, 100, 200);
      && r.Done?
      && r.value.orders == map[GetOrderHash(h, SIGNED, false) := 100]
      && r.value.vaults == map[ROLLUP_VAULT := EMPTY_VAULT, 8 := VaultState(2, BOUGHT_TOKEN, 200),
                               7 := VaultState(OWNER, BOUGHT_TOKEN, 200)]
  {
    OneHash(h);
    hide GetOrderHash, UpdateUserVault;
    var s0 := TRADERS.(orders := map[GetOrderHash(h, SIGNED, false) := 100]);
    VaultUpdated(s0, -100, OWNER, SOLD_TOKEN, ROLLUP_VAULT, 100);
    VaultUpdated(s0.(vaults := s0.vaults[ROLLUP_VAULT := EMPTY_VAULT]), 200, OWNER, BOUGHT_TOKEN, 7, 0);
  }

  lemma {:induction false} BuyerFills(s: Ledger, h: PairHash, verify: Verifier)
    requires var hash := GetOrderHash(h, COUNTER, false);
      0 <= hash < ORDER_ID_BOUND && verify(hash, 2, 0, 0) && FulfilledAt(s.orders, hash) == 0
    requires VaultAt(s.vaults, 8) == VaultState(2, BOUGHT_TOKEN, 200) && VaultAt(s.vaults, 9) == EMPTY_VAULT
    ensures var r := ExecuteLimitOrder(s, ContextOf(h, verify), TRADE.partyB, 200, 100);
      && r.Done?
      && r.value.vaults == s.vaults[8 := EMPTY_VAULT][9 := VaultState(2, SOLD_TOKEN, 100)]
  {
    hide GetOrderHash, UpdateUserVault;
    var s0 := s.(orders := s.orders[GetOrderHash(h, COUNTER, false) := 200]);
    VaultUpdated(s0, -200, 2, BOUGHT_TOKEN, 8, 200);
    VaultUpdated(s0.(vaults := s0.vaults[8 := EMPTY_VAULT]), 100, 2, SOLD_TOKEN, 9, 0);
  }

  /** Under every pair hash, a settlement that sells from rollup vault 2^63 + 277 with nonce 10 is accepted
      when its owner has signed only the order that sells from validium vault 5 with nonce 9. */
  lemma {:induction false} ValidiumSignatureSellsRollupVault(h: PairHash, verify: Verifier)
    requires var hash := GetOrderHash(h, SIGNED, false);
      0 <= hash < ORDER_ID_BOUND && forall m, r, s :: verify(m, OWNER, r, s) <==> m == hash
    requires var hash := GetOrderHash(h, COUNTER, false);
      0 <= hash < ORDER_ID_BOUND && verify(hash, 2, 0, 0) && hash != GetOrderHash(h, SIGNED, false)
    ensures ValidLedger(TRADERS) && OrderMessage31(ROLLED) != OrderMessage31(SIGNED)
    ensures var r := ExecuteBatch(TRADERS, ContextOf(h, verify), [TRADE]);
      && r.Done?
      && VaultAt(TRADERS.vaults, ROLLUP_VAULT) == VaultState(OWNER, SOLD_TOKEN, 100)
      && VaultAt(r.value.vaults, ROLLUP_VAULT) == EMPTY_VAULT
      && forall i :: i in r.value.vaults ==> InTree(i)
  {
    hide GetOrderHash, ExecuteLimitOrder;
    var ctx := ContextOf(h, verify);
    SellerFills(h, verify);
    var s1 := ExecuteLimitOrder(TRADERS, ctx, TRADE.partyA, 100, 200).value;
    BuyerFills(s1, h, verify);
    assert [TRADE][1..] == [];
  }
}
