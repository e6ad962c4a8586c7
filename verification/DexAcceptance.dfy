/** When a transaction of the spot batch is accepted (dex/execute_*.cairo), and what ledger it leaves, over the
    integers: amounts, signatures, order entries and one movement of a vault after the other. */
module DexAcceptance {
  import opened Felt
  import opened Options
  import opened Dex
  import opened DexConservation
  import opened DexFills
  import DexAuthorization

  // ---- Movements of vaults ----

  /** An amount for a vault, in the name of a key. */
  datatype Move = Move(diff: felt, key: int, tokenId: int, vault: int, onL1: bool)

  function L1KeyOf(m: Move): L1Key {
    KeyOfL1(m.key, m.tokenId, m.vault)
  }

  predicate Fits(balance: int) {
    0 <= balance < BALANCE_BOUND
  }

  /** The vault is free, or belongs to this key and token. */
  predicate Usable(v: VaultState, key: int, tokenId: int) {
    v.balance != 0 ==> v.starkKey == key && v.tokenId == tokenId
  }

  predicate CanMove(s: Ledger, m: Move) {
    if m.onL1 then L1KeyOf(m) in s.l1Vaults && Fits(s.l1Vaults[L1KeyOf(m)] + m.diff)
    else
      var v := VaultAt(s.vaults, m.vault);
      Usable(v, m.key, m.tokenId) && Fits(v.balance + m.diff)
  }

  /** The ledger after a movement: one balance has changed, and an emptied vault is free. */
  function Moved(s: Ledger, m: Move): Ledger
    requires CanMove(s, m)
  {
    if m.onL1 then s.(l1Vaults := s.l1Vaults[L1KeyOf(m) := s.l1Vaults[L1KeyOf(m)] + m.diff])
    else
      var balance := VaultAt(s.vaults, m.vault).balance + m.diff;
      s.(vaults := s.vaults[m.vault := if balance == 0 then EMPTY_VAULT else VaultState(m.key, m.tokenId, balance)])
  }

  predicate CanMoveAll(s: Ledger, ms: seq<Move>)
    decreases |ms|
  {
    ms != [] ==> CanMove(s, ms[0]) && CanMoveAll(Moved(s, ms[0]), ms[1..])
  }

  function AllMoved(s: Ledger, ms: seq<Move>): Ledger
    requires CanMoveAll(s, ms)
    decreases |ms|
  {
    if ms == [] then s else AllMoved(Moved(s, ms[0]), ms[1..])
  }

  /** One update of the program is one movement. */
  lemma {:induction false} UpdateIsMove(s: Ledger, m: Move)
    requires ValidLedger(s)
    ensures UpdateUserVault(s, m.diff, m.key, m.tokenId, m.vault, m.onL1) ==
            if CanMove(s, m) then Done(Moved(s, m)) else Abort
    ensures CanMove(s, m) ==> ValidLedger(Moved(s, m))
  {
    if m.onL1 {
      if L1KeyOf(m) in s.l1Vaults { RangeChecksDecide(s.l1Vaults[L1KeyOf(m)], m.diff); }
    } else {
      RangeChecksDecide(VaultAt(s.vaults, m.vault).balance, m.diff);
    }
  }

  /** The updates of the program in turn. */
  function RunMoves(s: Ledger, ms: seq<Move>): Outcome<Ledger>
    decreases |ms|
  {
    if ms == [] then Done(s)
    else
      var s1 :- UpdateUserVault(s, ms[0].diff, ms[0].key, ms[0].tokenId, ms[0].vault, ms[0].onL1);
      RunMoves(s1, ms[1..])
  }

  lemma {:induction false} MovesExactly(s: Ledger, ms: seq<Move>)
    requires ValidLedger(s)
    ensures RunMoves(s, ms) == if CanMoveAll(s, ms) then Done(AllMoved(s, ms)) else Abort
    decreases |ms|
  {
    hide UpdateUserVault, CanMove, Moved, ValidLedger;
    if ms != [] {
      UpdateIsMove(s, ms[0]);
      if CanMove(s, ms[0]) { MovesExactly(Moved(s, ms[0]), ms[1..]); }
    }
  }

  lemma {:induction false} RunTwo(s: Ledger, a: Move, b: Move)
    ensures RunMoves(s, [a, b]) ==
            var s1 := UpdateUserVault(s, a.diff, a.key, a.tokenId, a.vault, a.onL1);
            if s1.Abort? then Abort
            else UpdateUserVault(s1.value, b.diff, b.key, b.tokenId, b.vault, b.onL1)
  {
    hide UpdateUserVault;
    assert [a, b][1..] == [b] && [b][1..] == [];
    var s1 := UpdateUserVault(s, a.diff, a.key, a.tokenId, a.vault, a.onL1);
    if s1.Done? {
      assert RunMoves(s1.value, [b]) == UpdateUserVault(s1.value, b.diff, b.key, b.tokenId, b.vault, b.onL1) by {
        var s2 := UpdateUserVault(s1.value, b.diff, b.key, b.tokenId, b.vault, b.onL1);
        if s2.Done? { assert RunMoves(s2.value, []) == Done(s2.value); }
      }
    }
  }

  lemma {:induction false} RunConcat(s: Ledger, ms: seq<Move>, ns: seq<Move>)
    ensures RunMoves(s, ms + ns) ==
            if RunMoves(s, ms).Done? then RunMoves(RunMoves(s, ms).value, ns) else Abort
    decreases |ms|
  {
    hide UpdateUserVault;
    if ms == [] {
      assert ms + ns == ns;
    } else {
      assert (ms + ns)[1..] == ms[1..] + ns;
      var s1 := UpdateUserVault(s, ms[0].diff, ms[0].key, ms[0].tokenId, ms[0].vault, ms[0].onL1);
      if s1.Done? { RunConcat(s1.value, ms[1..], ns); }
    }
  }

  /** A fee leaves the source vault and enters the destination, which is on L2. */
  function FeeMoves(key: int, tokenId: int, source: int, fee: FeeInfo, fromL1: bool): seq<Move> {
    [Move(-fee.feeTaken, key, tokenId, source, fromL1),
     Move(fee.feeTaken, fee.destinationStarkKey, tokenId, fee.destinationVaultId, false)]
  }

  lemma {:induction false} FeeIsMoves(s: Ledger, key: int, tokenId: int, source: int, fee: FeeInfo, fromL1: bool)
    ensures UpdateFeeVaults(s, key, tokenId, source, fee, fromL1) ==
            RunMoves(s, FeeMoves(key, tokenId, source, fee, fromL1))
  {
    hide UpdateUserVault;
    RunTwo(s, Move(-fee.feeTaken, key, tokenId, source, fromL1),
           Move(fee.feeTaken, fee.destinationStarkKey, tokenId, fee.destinationVaultId, false));
  }

  // ---- Limit orders ----

  /** What a party sells, buys and pays. */
  function PartyMoves(p: Party, sold: felt, bought: felt): seq<Move> {
    var o := p.order;
    [Move(-sold, o.base.publicKey, o.assetIdSell, o.vaultSell, p.isL1),
     Move(bought, o.base.publicKey, o.assetIdBuy, o.vaultBuy, p.isL1)]
    + (if p.fee.Some? then FeeMoves(o.base.publicKey, o.assetIdFee, o.vaultFee, p.fee.value, p.isL1) else [])
  }

  /** The expiration lies ahead and fits its field. */
  predicate NotExpired(expiration: int, globalExpiration: int) {
    && 0 <= expiration - globalExpiration < RC_BOUND
    && DEX_EXPIRATION_BOUND - RC_BOUND <= expiration < DEX_EXPIRATION_BOUND
  }

  predicate FeeAllowed(fee: int, limit: int, bought: int, amountBuy: int) {
    && BALANCE_BOUND - RC_BOUND <= fee < BALANCE_BOUND
    && BALANCE_BOUND - RC_BOUND <= limit < BALANCE_BOUND
    && 0 <= Times(fee, amountBuy) <= Times(limit, bought)
  }

  /** The order book and the messages after a fill. */
  function AfterOrder(s: Ledger, ctx: Context, p: Party, sold: int): Ledger {
    var hash := GetOrderHash(ctx.pedersen, p.order, p.fee.Some?);
    s.(orders := s.orders[hash := FulfilledAt(s.orders, hash) + sold],
       l1Messages :=
         if p.isL1 then AddToSet(s.l1Messages, L1OrderMessage(p.order.base.publicKey, FieldsOf(p.order)))
         else s.l1Messages)
  }

  /** A fill at the signed price or better, of a live order with room for it, signed or sent from L1. */
  predicate OrderAllowed(s: Ledger, ctx: Context, p: Party, sold: int, bought: int) {
    var o := p.order;
    var hash := GetOrderHash(ctx.pedersen, o, p.fee.Some?);
    && Fits(o.amountSell) && Fits(o.amountBuy) && 0 <= o.base.nonce < DEX_NONCE_BOUND
    && NotExpired(o.base.expirationTimestamp, ctx.globalExpiration)
    && Times(sold, o.amountBuy) <= Times(o.amountSell, bought)
    && 0 <= hash < ORDER_ID_BOUND && FulfilledAt(s.orders, hash) + sold <= o.amountSell
    && (p.isL1 || ctx.verify(hash, o.base.publicKey, o.base.signatureR, o.base.signatureS))
    && (p.fee.Some? ==> FeeAllowed(p.fee.value.feeTaken, o.amountFee, bought, o.amountBuy))
  }

  predicate FillAllowed(s: Ledger, ctx: Context, p: Party, sold: felt, bought: felt) {
    OrderAllowed(s, ctx, p, sold, bought) && CanMoveAll(AfterOrder(s, ctx, p, sold), PartyMoves(p, sold, bought))
  }

  function AfterFill(s: Ledger, ctx: Context, p: Party, sold: felt, bought: felt): Ledger
    requires FillAllowed(s, ctx, p, sold, bought)
  {
    AllMoved(AfterOrder(s, ctx, p, sold), PartyMoves(p, sold, bought))
  }

  /** Balances and order entries in range: what the trees keep between batches. */
  predicate Ready(s: Ledger) {
    ValidLedger(s) && ValidOrders(s.orders) && SmallOrders(s.orders)
  }

  /** The checks on an order and its fee decide the integer conditions. */
  lemma {:induction false} ChecksExact(o: ExchangeOrder, globalExpiration: felt, sold: int, bought: int)
    requires Fits(sold) && Fits(bought)
    ensures LimitOrderChecks(o, globalExpiration, sold, bought) <==>
            && Fits(o.amountSell) && Fits(o.amountBuy) && 0 <= o.base.nonce < DEX_NONCE_BOUND
            && NotExpired(o.base.expirationTimestamp, globalExpiration)
            && Times(sold, o.amountBuy) <= Times(o.amountSell, bought)
  {
    ChecksDecide(o, globalExpiration, sold, bought);
    TimesIsProduct(sold, o.amountBuy);
    TimesIsProduct(o.amountSell, bought);
    hide LimitOrderChecks, Times;
  }

  lemma {:induction false} FeeExact(fee: felt, limit: felt, bought: int, amountBuy: int)
    requires Fits(bought) && Fits(amountBuy)
    ensures OrderFeeOk(fee, limit, bought, amountBuy) <==> FeeAllowed(fee, limit, bought, amountBuy)
  {
    OrderFeeExact(fee, limit, bought, amountBuy);
    TimesIsProduct(fee, amountBuy);
    TimesIsProduct(limit, bought);
    hide OrderFeeOk, Times;
  }

  lemma {:induction false} FulfillExact(orders: map<int, int>, id: int, sold: int, amountSell: int)
    requires ValidOrders(orders) && SmallOrders(orders) && Fits(sold) && Fits(amountSell)
    ensures FulfillSell(orders, id, sold, amountSell) ==
            if 0 <= id < ORDER_ID_BOUND && FulfilledAt(orders, id) + sold <= amountSell
            then Done(orders[id := FulfilledAt(orders, id) + sold]) else Abort
  {
  }

  /** The two vault updates of an order, then its signature. */
  lemma {:induction false} VaultsAreMoves(s: Ledger, ctx: Context, p: Party, sold: felt, bought: felt, hash: int)
    ensures var o := p.order;
      var s0 := if p.isL1 then s.(l1Messages := AddToSet(s.l1Messages, L1OrderMessage(o.base.publicKey, FieldsOf(o))))
                else s;
      var run := RunMoves(s0, [Move(-sold, o.base.publicKey, o.assetIdSell, o.vaultSell, p.isL1),
                               Move(bought, o.base.publicKey, o.assetIdBuy, o.vaultBuy, p.isL1)]);
      UpdateVaultsAndVerify(s, ctx, o, p.isL1, sold, bought, hash) ==
        if p.isL1 || ctx.verify(hash, o.base.publicKey, o.base.signatureR, o.base.signatureS) then run else Abort
  {
    hide UpdateUserVault, AddToSet;
    var o := p.order;
    var s0 := if p.isL1 then s.(l1Messages := AddToSet(s.l1Messages, L1OrderMessage(o.base.publicKey, FieldsOf(o))))
              else s;
    RunTwo(s0, Move(-sold, o.base.publicKey, o.assetIdSell, o.vaultSell, p.isL1),
           Move(bought, o.base.publicKey, o.assetIdBuy, o.vaultBuy, p.isL1));
  }

  /** A fill is accepted if and only if it is allowed, and leaves the stated ledger. */
  lemma {:induction false} FillExactly(s: Ledger, ctx: Context, p: Party, sold: felt, bought: felt)
    requires Ready(s) && Fits(sold) && Fits(bought)
    ensures ExecuteLimitOrder(s, ctx, p, sold, bought) ==
            if FillAllowed(s, ctx, p, sold, bought) then Done(AfterFill(s, ctx, p, sold, bought)) else Abort
  {
    hide LimitOrderChecks, GetOrderHash, FulfillSell, UpdateVaultsAndVerify, OrderFeeOk, UpdateFeeVaults, RunMoves,
      CanMoveAll, AllMoved, NotExpired, FeeAllowed, Times, ValidLedger, AddToSet;
    var o, hash := p.order, GetOrderHash(ctx.pedersen, p.order, p.fee.Some?);
    ChecksExact(o, ctx.globalExpiration, sold, bought);
    if LimitOrderChecks(o, ctx.globalExpiration, sold, bought) {
      FulfillExact(s.orders, hash, sold, o.amountSell);
      if p.fee.Some? { FeeExact(p.fee.value.feeTaken, o.amountFee, bought, o.amountBuy); }
      var book := FulfillSell(s.orders, hash, sold, o.amountSell);
      if book.Done? {
        var s0 := AfterOrder(s, ctx, p, sold);
        AfterOrderIsValid(s, ctx, p, sold);
        VaultsAreMoves(s.(orders := book.value), ctx, p, sold, bought, hash);
        var trade := [Move(-sold, o.base.publicKey, o.assetIdSell, o.vaultSell, p.isL1),
                      Move(bought, o.base.publicKey, o.assetIdBuy, o.vaultBuy, p.isL1)];
        MovesExactly(s0, PartyMoves(p, sold, bought));
        if p.fee.Some? {
          var fee := FeeMoves(o.base.publicKey, o.assetIdFee, o.vaultFee, p.fee.value, p.isL1);
          RunConcat(s0, trade, fee);
          if RunMoves(s0, trade).Done? {
            FeeIsMoves(RunMoves(s0, trade).value, o.base.publicKey, o.assetIdFee, o.vaultFee, p.fee.value, p.isL1);
          }
        } else {
          assert PartyMoves(p, sold, bought) == trade;
        }
      }
    }
  }

  lemma {:induction false} AfterOrderIsValid(s: Ledger, ctx: Context, p: Party, sold: int)
    requires ValidLedger(s)
    ensures ValidLedger(AfterOrder(s, ctx, p, sold))
  {
    hide GetOrderHash, AddToSet;
  }

  // ---- Settlements ----

  /** Opposite tokens, amounts in range, and both fills in turn. */
  predicate SettlementAllowed(s: Ledger, ctx: Context, tx: Transaction)
    requires tx.Settlement?
  {
    && Fits(tx.partyASold) && Fits(tx.partyBSold)
    && tx.partyA.order.assetIdBuy == tx.partyB.order.assetIdSell
    && tx.partyB.order.assetIdBuy == tx.partyA.order.assetIdSell
    && FillAllowed(s, ctx, tx.partyA, tx.partyASold, tx.partyBSold)
    && FillAllowed(AfterFill(s, ctx, tx.partyA, tx.partyASold, tx.partyBSold), ctx, tx.partyB, tx.partyBSold,
                   tx.partyASold)
  }

  lemma {:induction false} FitsExact(x: felt)
    ensures IsNn(x) && IsNn(BALANCE_BOUND - 1 - x) <==> Fits(x)
  {
  }

  lemma {:induction false} FillKeepsReady(s: Ledger, ctx: Context, p: Party, sold: felt, bought: felt)
    requires Ready(s) && Fits(sold) && Fits(bought) && ExecuteLimitOrder(s, ctx, p, sold, bought).Done?
    ensures Ready(ExecuteLimitOrder(s, ctx, p, sold, bought).value)
  {
    hide ExecuteLimitOrder, Moves;
    LimitOrderMoves(s, ctx, p, sold, bought);
    MovesIsValid(s, ExecuteLimitOrder(s, ctx, p, sold, bought).value,
                 [Flow(p.order.assetIdSell, -sold)] + [Flow(p.order.assetIdBuy, bought)]);
    LimitOrderFills(s, ctx, p, sold, bought, SOME_ORDER, false);
  }

  lemma {:induction false} SettlementExactly(s: Ledger, ctx: Context, tx: Transaction)
    requires Ready(s) && tx.Settlement?
    ensures ExecuteSettlement(s, ctx, tx) ==
            if SettlementAllowed(s, ctx, tx) then
              Done(AfterFill(AfterFill(s, ctx, tx.partyA, tx.partyASold, tx.partyBSold), ctx, tx.partyB, tx.partyBSold,
                             tx.partyASold))
            else Abort
  {
    hide ExecuteLimitOrder, FillAllowed, AfterFill, Ready, IsNn;
    FitsExact(tx.partyASold);
    FitsExact(tx.partyBSold);
    if Fits(tx.partyASold) && Fits(tx.partyBSold) {
      FillExactly(s, ctx, tx.partyA, tx.partyASold, tx.partyBSold);
      var s1 := ExecuteLimitOrder(s, ctx, tx.partyA, tx.partyASold, tx.partyBSold);
      if s1.Done? {
        FillKeepsReady(s, ctx, tx.partyA, tx.partyASold, tx.partyBSold);
        FillExactly(s1.value, ctx, tx.partyB, tx.partyBSold, tx.partyASold);
      }
    }
  }

  // ---- Transfers ----

  function TransferMoves(t: ExchangeTransfer, fee: Option<FeeInfo>): seq<Move> {
    [Move(-t.amount, t.base.publicKey, t.assetId, t.senderVaultId, false),
     Move(t.amount, t.receiverPublicKey, t.assetId, t.receiverVaultId, false)]
    + (if fee.Some? then FeeMoves(t.base.publicKey, t.assetIdFee, t.srcFeeVaultId, fee.value, false) else [])
  }

  /** A signed transfer that is live and whose entry is unset, with a fee within its limit. */
  predicate TransferAllowed(s: Ledger, ctx: Context, tx: Transaction)
    requires tx.Transfer?
  {
    var t := tx.transfer;
    var hash := TransferMessage(ctx.pedersen, t, tx.condition, tx.fee.Some?);
    && Fits(t.amount) && 0 <= t.base.nonce < DEX_NONCE_BOUND
    && NotExpired(t.base.expirationTimestamp, ctx.globalExpiration)
    && (tx.fee.Some? ==> 0 <= tx.fee.value.feeTaken <= t.maxAmountFee < BALANCE_BOUND)
    && CanMoveAll(s, TransferMoves(t, tx.fee))
    && ctx.verify(hash, t.base.publicKey, t.base.signatureR, t.base.signatureS)
    && 0 <= hash < ORDER_ID_BOUND && FulfilledAt(s.orders, hash) == 0
  }

  /** The amounts are moved, the entry is set, and a condition is published. */
  function AfterTransfer(s: Ledger, ctx: Context, tx: Transaction): Ledger
    requires tx.Transfer? && TransferAllowed(s, ctx, tx)
  {
    var hash := TransferMessage(ctx.pedersen, tx.transfer, tx.condition, tx.fee.Some?);
    AllMoved(s, TransferMoves(tx.transfer, tx.fee)).(
      orders := s.orders[hash := tx.transfer.amount],
      conditions := if tx.condition != 0 then s.conditions + [tx.condition] else s.conditions)
  }

  lemma {:induction false} MovesKeepBooks(s: Ledger, ms: seq<Move>)
    requires CanMoveAll(s, ms)
    ensures var t := AllMoved(s, ms); t == s.(vaults := t.vaults, l1Vaults := t.l1Vaults)
    decreases |ms|
  {
    hide CanMove;
    if ms != [] { MovesKeepBooks(Moved(s, ms[0]), ms[1..]); }
  }

  lemma {:induction false} TransferIsMoves(s: Ledger, t: ExchangeTransfer, fee: Option<FeeInfo>)
    requires ValidLedger(s)
    ensures MoveTransfer(s, t, fee) ==
            if CanMoveAll(s, TransferMoves(t, fee))
                && (fee.Some? ==> 0 <= fee.value.feeTaken <= t.maxAmountFee < BALANCE_BOUND)
            then Done(AllMoved(s, TransferMoves(t, fee))) else Abort
  {
    hide UpdateUserVault, UpdateFeeVaults, RunMoves, CanMoveAll, AllMoved, TransferFeeOk, ValidLedger;
    var a := Move(-t.amount, t.base.publicKey, t.assetId, t.senderVaultId, false);
    var b := Move(t.amount, t.receiverPublicKey, t.assetId, t.receiverVaultId, false);
    RunTwo(s, a, b);
    MovesExactly(s, TransferMoves(t, fee));
    if fee.Some? {
      TransferFeeExact(fee.value.feeTaken, t.maxAmountFee);
      RunConcat(s, [a, b], FeeMoves(t.base.publicKey, t.assetIdFee, t.srcFeeVaultId, fee.value, false));
      if RunMoves(s, [a, b]).Done? {
        FeeIsMoves(RunMoves(s, [a, b]).value, t.base.publicKey, t.assetIdFee, t.srcFeeVaultId, fee.value, false);
      }
    } else {
      assert TransferMoves(t, fee) == [a, b];
    }
  }

  lemma {:induction false} TransferChecksExact(t: ExchangeTransfer, globalExpiration: felt)
    ensures TransferChecks(t, globalExpiration) <==>
            && Fits(t.amount) && 0 <= t.base.nonce < DEX_NONCE_BOUND
            && NotExpired(t.base.expirationTimestamp, globalExpiration)
  {
  }

  lemma {:induction false} TransferExactly(s: Ledger, ctx: Context, tx: Transaction)
    requires Ready(s) && tx.Transfer?
    ensures ExecuteTransfer(s, ctx, tx) ==
            if TransferAllowed(s, ctx, tx) then Done(AfterTransfer(s, ctx, tx)) else Abort
  {
    hide TransferChecks, MoveTransfer, TransferMessage, CanMoveAll, AllMoved, TransferMoves, NotExpired;
    TransferChecksExact(tx.transfer, ctx.globalExpiration);
    TransferIsMoves(s, tx.transfer, tx.fee);
    if CanMoveAll(s, TransferMoves(tx.transfer, tx.fee)) { MovesKeepBooks(s, TransferMoves(tx.transfer, tx.fee)); }
  }

  // ---- Mints ----

  function MintMove(tx: Transaction): Move
    requires tx.Mint?
  {
    Move(1, tx.starkKey, tx.tokenId, tx.vaultId, false)
  }

  /** A mintable token for a usable vault, not minted before where that is enforced. */
  predicate MintAllowed(s: Ledger, ctx: Context, tx: Transaction)
    requires tx.Mint?
  {
    && MINTING_BIT <= tx.tokenId % P < MINTING_BIT + MINTABLE_ASSET_ID_BOUND
    && (ctx.uniqueMinting ==> FulfilledAt(s.orders, ctx.pedersen(MINT_TREE_INDEX_SALT, tx.tokenId)) == 0)
    && CanMove(s, MintMove(tx))
  }

  function AfterMint(s: Ledger, ctx: Context, tx: Transaction): Ledger
    requires tx.Mint? && MintAllowed(s, ctx, tx)
  {
    Moved(s, MintMove(tx)).(
      orders := if ctx.uniqueMinting then s.orders[ctx.pedersen(MINT_TREE_INDEX_SALT, tx.tokenId) := 1] else s.orders)
  }

  lemma {:induction false} MintExactly(s: Ledger, ctx: Context, tx: Transaction)
    requires Ready(s) && tx.Mint?
    ensures ExecuteMint(s, ctx, tx) == if MintAllowed(s, ctx, tx) then Done(AfterMint(s, ctx, tx)) else Abort
  {
    MintableExact(tx.tokenId);
    var orders := if ctx.uniqueMinting then SpendOnce(s.orders, ctx.pedersen(MINT_TREE_INDEX_SALT, tx.tokenId), 1)
                  else Done(s.orders);
    if orders.Done? { UpdateIsMove(s.(orders := orders.value), MintMove(tx)); }
    hide UpdateUserVault;
  }

  // ---- Modifications ----

  /** The vault is usable, its new balance is in range, and a full withdrawal leaves none. */
  predicate ModificationAllowed(s: Ledger, tx: Transaction)
    requires tx.Modification?
  {
    && Usable(VaultAt(s.vaults, tx.vaultIndex), tx.starkKey, tx.tokenId)
    && Fits(tx.balanceAfter)
    && 0 <= tx.vaultIndex < VAULT_SHIFT
    && (tx.isFullWithdrawal ==> tx.balanceAfter == 0)
  }

  function AfterModification(s: Ledger, tx: Transaction): Ledger
    requires tx.Modification?
  {
    var diff := tx.balanceAfter - VaultAt(s.vaults, tx.vaultIndex).balance;
    s.(vaults := s.vaults[tx.vaultIndex := GetVaultState(tx.starkKey, tx.tokenId, tx.balanceAfter)],
       modifications := s.modifications + [ModificationOutput(tx.starkKey, tx.tokenId,
                                                             ActionWord(tx.isFullWithdrawal, tx.vaultIndex, diff))])
  }

  lemma {:induction false} VaultIndexExact(x: felt)
    ensures IsNn(x) && IsNn(VAULT_SHIFT - 1 - x) <==> 0 <= x < VAULT_SHIFT
  {
  }

  lemma {:induction false} ModificationExactly(s: Ledger, tx: Transaction)
    requires Ready(s) && tx.Modification?
    ensures ExecuteModification(s, tx) ==
            if ModificationAllowed(s, tx) then Done(AfterModification(s, tx)) else Abort
  {
    hide IsNn, ActionWord;
    FitsExact(tx.balanceAfter);
    FitsExact(VaultAt(s.vaults, tx.vaultIndex).balance);
    VaultIndexExact(tx.vaultIndex);
  }

  /** A full withdrawal leaves an empty vault and reports all that it held. */
  lemma {:induction false} FullWithdrawalEmpties(s: Ledger, tx: Transaction)
    requires Ready(s) && tx.Modification? && tx.isFullWithdrawal && ExecuteModification(s, tx).Done?
    ensures var t := ExecuteModification(s, tx).value;
      var m := t.modifications[|t.modifications| - 1];
      && VaultAt(t.vaults, tx.vaultIndex) == EMPTY_VAULT
      && m.starkKey == tx.starkKey && m.tokenId == tx.tokenId && ActionIsFull(m.action)
      && ActionVault(m.action) == tx.vaultIndex
      && ActionDiff(m.action) == -VaultAt(s.vaults, tx.vaultIndex).balance
  {
    ModificationExactly(s, tx);
    ActionRoundTrip(true, tx.vaultIndex, -VaultAt(s.vaults, tx.vaultIndex).balance);
    hide ExecuteModification, ActionWord, ActionDiff, ActionVault, ActionIsFull;
  }

  /** The named owner is the vault's, and is not the requester. */
  predicate FalseFullWithdrawalAllowed(s: Ledger, tx: Transaction)
    requires tx.FalseFullWithdrawal?
  {
    Usable(VaultAt(s.vaults, tx.vaultIndex), tx.starkKey, tx.tokenId) && tx.requesterStarkKey != tx.starkKey
  }

  function AfterFalseFullWithdrawal(s: Ledger, tx: Transaction): Ledger
    requires tx.FalseFullWithdrawal?
  {
    s.(vaults := s.vaults[tx.vaultIndex := VaultAt(s.vaults, tx.vaultIndex)],
       modifications := s.modifications + [ModificationOutput(tx.requesterStarkKey, 0,
                                                             ActionWord(true, tx.vaultIndex, 0))])
  }

  lemma {:induction false} FalseFullWithdrawalExactly(s: Ledger, tx: Transaction)
    requires Ready(s) && tx.FalseFullWithdrawal?
    ensures ExecuteFalseFullWithdrawal(s, tx) ==
            if FalseFullWithdrawalAllowed(s, tx) then Done(AfterFalseFullWithdrawal(s, tx)) else Abort
  {
  }

  // ---- Any transaction, any batch ----

  predicate Allowed(s: Ledger, ctx: Context, tx: Transaction) {
    match tx
    case Settlement(_, _, _, _) => SettlementAllowed(s, ctx, tx)
    case Transfer(_, _, _) => TransferAllowed(s, ctx, tx)
    case Mint(_, _, _) => MintAllowed(s, ctx, tx)
    case Modification(_, _, _, _, _) => ModificationAllowed(s, tx)
    case FalseFullWithdrawal(_, _, _, _) => FalseFullWithdrawalAllowed(s, tx)
  }

  function After(s: Ledger, ctx: Context, tx: Transaction): Ledger
    requires Allowed(s, ctx, tx)
  {
    match tx
    case Settlement(a, b, soldA, soldB) =>
      AfterFill(AfterFill(s, ctx, a, soldA, soldB), ctx, b, soldB, soldA)
    case Transfer(_, _, _) => AfterTransfer(s, ctx, tx)
    case Mint(_, _, _) => AfterMint(s, ctx, tx)
    case Modification(_, _, _, _, _) => AfterModification(s, tx)
    case FalseFullWithdrawal(_, _, _, _) => AfterFalseFullWithdrawal(s, tx)
  }

  /** A transaction is accepted if and only if it is allowed, and leaves the stated ledger. */
  lemma {:induction false} TransactionExactly(s: Ledger, ctx: Context, tx: Transaction)
    requires Ready(s)
    ensures ExecuteTransaction(s, ctx, tx) == if Allowed(s, ctx, tx) then Done(After(s, ctx, tx)) else Abort
  {
    hide Ready, ExecuteSettlement, ExecuteTransfer, ExecuteMint, ExecuteModification, ExecuteFalseFullWithdrawal,
      SettlementAllowed, TransferAllowed, MintAllowed, ModificationAllowed, FalseFullWithdrawalAllowed, AfterFill,
      AfterTransfer, AfterMint, AfterModification, AfterFalseFullWithdrawal;
    match tx
    case Settlement(_, _, _, _) => SettlementExactly(s, ctx, tx);
    case Transfer(_, _, _) => TransferExactly(s, ctx, tx);
    case Mint(_, _, _) => MintExactly(s, ctx, tx);
    case Modification(_, _, _, _, _) => ModificationExactly(s, tx);
    case FalseFullWithdrawal(_, _, _, _) => FalseFullWithdrawalExactly(s, tx);
  }

  lemma {:induction false} StepIsReady(s: Ledger, ctx: Context, tx: Transaction)
    requires Ready(s) && ExecuteTransaction(s, ctx, tx).Done?
    ensures Ready(ExecuteTransaction(s, ctx, tx).value)
  {
    hide ExecuteTransaction;
    DexAuthorization.StepStaysValid(s, ctx, tx);
    StepGrows(s, ctx, tx, 0);
  }

  /** Every transaction is allowed on the ledger that those before it leave. */
  predicate AllAllowed(s: Ledger, ctx: Context, txs: seq<Transaction>)
    decreases |txs|
  {
    txs != [] ==> Allowed(s, ctx, txs[0]) && AllAllowed(After(s, ctx, txs[0]), ctx, txs[1..])
  }

  function AfterAll(s: Ledger, ctx: Context, txs: seq<Transaction>): Ledger
    requires AllAllowed(s, ctx, txs)
    decreases |txs|
  {
    if txs == [] then s else AfterAll(After(s, ctx, txs[0]), ctx, txs[1..])
  }

  /** A batch is accepted if and only if every transaction is allowed in its turn, and leaves the stated
      ledger. */
  lemma {:induction false} BatchExactly(s: Ledger, ctx: Context, txs: seq<Transaction>)
    requires Ready(s)
    ensures ExecuteBatch(s, ctx, txs) ==
            if AllAllowed(s, ctx, txs) then Done(AfterAll(s, ctx, txs)) else Abort
    decreases |txs|
  {
    hide ExecuteTransaction, Allowed, After, Ready;
    if txs != [] {
      TransactionExactly(s, ctx, txs[0]);
      if Allowed(s, ctx, txs[0]) {
        StepIsReady(s, ctx, txs[0]);
        BatchExactly(After(s, ctx, txs[0]), ctx, txs[1..]);
      }
    }
  }
}
