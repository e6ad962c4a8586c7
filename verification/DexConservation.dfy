/** Conservation on the spot ledger: settlements and transfers move units between vaults, mints add
    one, modifications report what they change, and every balance stays in range. */
module DexConservation {
  import opened Felt
  import opened Options
  import opened Arithmetic
  import opened Dex
  import opened DexTotals

  /** A vault in range, without key and token when it is empty. */
  predicate ValidVault(v: VaultState) {
    0 <= v.balance < BALANCE_BOUND && (v.balance == 0 ==> v == EMPTY_VAULT)
  }

  predicate ValidVaults(vaults: Vaults) {
    forall i :: i in vaults ==> ValidVault(vaults[i])
  }

  predicate ValidL1(l1Vaults: L1Vaults) {
    forall k :: k in l1Vaults ==> 0 <= l1Vaults[k] < BALANCE_BOUND
  }

  predicate ValidLedger(s: Ledger) {
    ValidVaults(s.vaults) && ValidL1(s.l1Vaults)
  }

  // ---- Flows ----

  datatype Flow = Flow(tokenId: int, diff: int)

  const NO_FLOWS: seq<Flow> := []

  function Net(flows: seq<Flow>, tokenId: int): int {
    if flows == [] then 0 else (if flows[0].tokenId == tokenId then flows[0].diff else 0) + Net(flows[1..], tokenId)
  }

  lemma {:induction false} NetConcat(a: seq<Flow>, b: seq<Flow>, tokenId: int)
    ensures Net(a + b, tokenId) == Net(a, tokenId) + Net(b, tokenId)
  {
    if a == [] {
      assert a + b == b;
    } else {
      assert (a + b)[1..] == a[1..] + b;
      NetConcat(a[1..], b, tokenId);
    }
  }

  /** From s to t the units on the ledger change by the flows, and every balance stays in range. */
  ghost predicate Moves(s: Ledger, t: Ledger, flows: seq<Flow>) {
    ValidLedger(t) && forall tk :: Total(t, tk) == Total(s, tk) + Net(flows, tk)
  }

  lemma {:induction false} MovesCompose(a: Ledger, b: Ledger, c: Ledger, f: seq<Flow>, g: seq<Flow>)
    requires Moves(a, b, f) && Moves(b, c, g)
    ensures Moves(a, c, f + g)
  {
    forall tk
      ensures Total(c, tk) == Total(a, tk) + Net(f + g, tk)
    {
      NetConcat(f, g, tk);
    }
  }

  lemma {:induction false} SameVaultsMove(s: Ledger, t: Ledger)
    requires ValidLedger(s) && t.vaults == s.vaults && t.l1Vaults == s.l1Vaults
    ensures Moves(s, t, [])
  {
  }

  lemma {:induction false} SingleNet(f: Flow, tokenId: int)
    ensures Net([f], tokenId) == if f.tokenId == tokenId then f.diff else 0
  {
    assert [f][1..] == [];
  }

  lemma {:induction false} OppositeFlowsCancel(s: Ledger, t: Ledger, tokenId: int, amount: int)
    requires Moves(s, t, [Flow(tokenId, -amount)] + [Flow(tokenId, amount)])
    ensures Moves(s, t, [])
  {
    forall tk
      ensures Total(t, tk) == Total(s, tk) + Net([], tk)
    {
      NetConcat([Flow(tokenId, -amount)], [Flow(tokenId, amount)], tk);
      SingleNet(Flow(tokenId, -amount), tk);
      SingleNet(Flow(tokenId, amount), tk);
    }
  }

  // ---- One vault ----

  /** Replacing a vault by one of the same key and token, as the dictionary check demands. */
  lemma {:induction false} BalancesMove(s: Ledger, before: int, after: int, starkKey: int, tokenId: int, index: int)
    requires ValidLedger(s) && 0 <= after < BALANCE_BOUND
    requires UpdateBalances(s.vaults, before, after, starkKey, tokenId, index).Done?
    ensures Moves(s, s.(vaults := UpdateBalances(s.vaults, before, after, starkKey, tokenId, index).value),
                  [Flow(tokenId, after - before)])
  {
    var t := s.(vaults := UpdateBalances(s.vaults, before, after, starkKey, tokenId, index).value);
    forall tk
      ensures Total(t, tk) == Total(s, tk) + Net([Flow(tokenId, after - before)], tk)
    {
      L2TotalUpdate(s.vaults, index, GetVaultState(starkKey, tokenId, after), tk);
      SingleNet(Flow(tokenId, after - before), tk);
    }
  }

  lemma {:induction false} L1DiffMoves(s: Ledger, diff: felt, key: L1Key)
    requires ValidLedger(s) && UpdateL1Diff(s.l1Vaults, diff, key).Done?
    ensures Moves(s, s.(l1Vaults := UpdateL1Diff(s.l1Vaults, diff, key).value), [Flow(key.tokenId, diff)])
  {
    var t := s.(l1Vaults := UpdateL1Diff(s.l1Vaults, diff, key).value);
    forall tk
      ensures Total(t, tk) == Total(s, tk) + Net([Flow(key.tokenId, diff)], tk)
    {
      L1TotalUpdate(s.l1Vaults, key, s.l1Vaults[key] + diff, tk);
      SingleNet(Flow(key.tokenId, diff), tk);
    }
  }

  /** The range checks of l2_vault_update_diff decide the integer range. */
  lemma {:induction false} RangeChecksDecide(before: int, diff: felt)
    requires 0 <= before < BALANCE_BOUND
    ensures IsNn(before + diff) && IsNn(BALANCE_BOUND - 1 - (before + diff)) <==> 0 <= before + diff < BALANCE_BOUND
  {
  }

  /** What one update leaves alone. */
  predicate SameBooks(s: Ledger, t: Ledger) {
    t.modifications == s.modifications && t.orders == s.orders
  }

  lemma {:induction false} UserVaultMoves(s: Ledger, diff: felt, key: int, tokenId: int, vaultIndex: int, onL1: bool)
    requires ValidLedger(s) && UpdateUserVault(s, diff, key, tokenId, vaultIndex, onL1).Done?
    ensures var t := UpdateUserVault(s, diff, key, tokenId, vaultIndex, onL1).value;
      Moves(s, t, [Flow(tokenId, diff)]) && SameBooks(s, t)
  {
    hide Moves, IsNn, UpdateBalances;
    if onL1 {
      L1DiffMoves(s, diff, KeyOfL1(key, tokenId, vaultIndex));
    } else {
      var before := VaultAt(s.vaults, vaultIndex).balance;
      RangeChecksDecide(before, diff);
      BalancesMove(s, before, before + diff, key, tokenId, vaultIndex);
    }
  }

  lemma {:induction false} MovesIsValid(s: Ledger, t: Ledger, flows: seq<Flow>)
    requires Moves(s, t, flows)
    ensures ValidLedger(t)
  {
  }

  /** Two updates in a row. */
  lemma {:induction false} TwoVaultsMove(s: Ledger, s1: Ledger, s2: Ledger,
                                         diff1: felt, key1: int, token1: int, index1: int, onL11: bool,
                                         diff2: felt, key2: int, token2: int, index2: int, onL12: bool)
    requires ValidLedger(s)
    requires UpdateUserVault(s, diff1, key1, token1, index1, onL11) == Done(s1)
    requires UpdateUserVault(s1, diff2, key2, token2, index2, onL12) == Done(s2)
    ensures Moves(s, s2, [Flow(token1, diff1)] + [Flow(token2, diff2)]) && SameBooks(s, s2)
  {
    hide Moves, UpdateUserVault;
    UserVaultMoves(s, diff1, key1, token1, index1, onL11);
    MovesIsValid(s, s1, [Flow(token1, diff1)]);
    UserVaultMoves(s1, diff2, key2, token2, index2, onL12);
    MovesCompose(s, s1, s2, [Flow(token1, diff1)], [Flow(token2, diff2)]);
  }

  lemma {:induction false} FeeVaultsMove(s: Ledger, userKey: int, tokenId: int, sourceVault: int, fee: FeeInfo,
                                         fromL1: bool)
    requires ValidLedger(s) && UpdateFeeVaults(s, userKey, tokenId, sourceVault, fee, fromL1).Done?
    ensures var t := UpdateFeeVaults(s, userKey, tokenId, sourceVault, fee, fromL1).value;
      Moves(s, t, []) && SameBooks(s, t)
  {
    hide UpdateUserVault, Moves;
    var s1 := UpdateUserVault(s, -fee.feeTaken, userKey, tokenId, sourceVault, fromL1).value;
    var s2 := UpdateUserVault(s1, fee.feeTaken, fee.destinationStarkKey, tokenId, fee.destinationVaultId, false).value;
    TwoVaultsMove(s, s1, s2, -fee.feeTaken, userKey, tokenId, sourceVault, fromL1,
                  fee.feeTaken, fee.destinationStarkKey, tokenId, fee.destinationVaultId, false);
    OppositeFlowsCancel(s, s2, tokenId, fee.feeTaken);
  }

  // ---- Fees ----

  /** order_validate_fee, for amounts in range: the fee ratio holds over the integers and both fee
      amounts are below 2^63. */
  lemma {:induction false} OrderFeeExact(feeTaken: felt, feeLimit: felt, amountBought: int, orderBuy: int)
    requires 0 <= amountBought < BALANCE_BOUND && 0 <= orderBuy < BALANCE_BOUND
    ensures OrderFeeOk(feeTaken, feeLimit, amountBought, orderBuy) <==>
            && BALANCE_BOUND - RC_BOUND <= feeTaken < BALANCE_BOUND
            && BALANCE_BOUND - RC_BOUND <= feeLimit < BALANCE_BOUND
            && 0 <= feeTaken * orderBuy <= feeLimit * amountBought
  {
    hide Times;
    TimesIsProduct(feeTaken, orderBuy);
    TimesIsProduct(feeLimit, amountBought);
    if BALANCE_BOUND - RC_BOUND <= feeTaken < BALANCE_BOUND && BALANCE_BOUND - RC_BOUND <= feeLimit < BALANCE_BOUND {
      ProductBound(feeTaken, orderBuy, RC_BOUND, BALANCE_BOUND);
      ProductBound(feeLimit, amountBought, RC_BOUND, BALANCE_BOUND);
      LimitProduct(feeLimit, amountBought);
    }
  }

  lemma {:induction false} LimitProduct(x: int, y: int)
    requires x < BALANCE_BOUND && 0 <= y < BALANCE_BOUND
    ensures x * y < RC_BOUND
  {
    if x >= 0 {
      ProductBound(x, y, BALANCE_BOUND, BALANCE_BOUND);
    } else {
      NonNegativeProduct(-x, y);
      assert (-x) * y == -(x * y);
    }
  }

  /** An accepted order fee is non-negative whenever the order asks for something. */
  lemma {:induction false} FeeNonNegative(feeTaken: felt, feeLimit: felt, amountBought: int, orderBuy: int)
    requires 0 <= amountBought < BALANCE_BOUND && 0 < orderBuy < BALANCE_BOUND
    requires OrderFeeOk(feeTaken, feeLimit, amountBought, orderBuy)
    ensures 0 <= feeTaken
  {
    OrderFeeExact(feeTaken, feeLimit, amountBought, orderBuy);
    CancelPositive(0, feeTaken, orderBuy);
  }

  /** When the order asks for nothing, only the range checks bound the fee: the comment beside the
      check gives [0, 2^63), the code also admits negative values. */
  lemma {:induction false} FeeUnboundedBelow(feeTaken: felt, feeLimit: felt, amountBought: int)
    requires 0 <= amountBought < BALANCE_BOUND && 0 <= feeLimit < BALANCE_BOUND
    ensures OrderFeeOk(feeTaken, feeLimit, amountBought, 0) <==> BALANCE_BOUND - RC_BOUND <= feeTaken < BALANCE_BOUND
    ensures OrderFeeOk(-1, feeLimit, amountBought, 0)
  {
    OrderFeeExact(feeTaken, feeLimit, amountBought, 0);
    OrderFeeExact(-1, feeLimit, amountBought, 0);
    NonNegativeProduct(feeLimit, amountBought);
  }

  /** transfer_validate_fee decides 0 <= fee_taken <= fee_limit < 2^63. */
  lemma {:induction false} TransferFeeExact(feeTaken: felt, feeLimit: felt)
    ensures TransferFeeOk(feeTaken, feeLimit) <==> 0 <= feeTaken <= feeLimit < BALANCE_BOUND
  {
  }

  // ---- Transactions ----

  lemma {:induction false} OrderVaultsMove(s: Ledger, ctx: Context, o: ExchangeOrder, isL1: bool, sold: felt,
                                           bought: felt, hash: int)
    requires ValidLedger(s) && UpdateVaultsAndVerify(s, ctx, o, isL1, sold, bought, hash).Done?
    ensures var t := UpdateVaultsAndVerify(s, ctx, o, isL1, sold, bought, hash).value;
      Moves(s, t, [Flow(o.assetIdSell, -sold)] + [Flow(o.assetIdBuy, bought)]) && SameBooks(s, t)
  {
    hide UpdateUserVault, Moves;
    var s0 :=
      if isL1 then s.(l1Messages := AddToSet(s.l1Messages, L1OrderMessage(o.base.publicKey, FieldsOf(o))))
      else s;
    var s1 := UpdateUserVault(s0, -sold, o.base.publicKey, o.assetIdSell, o.vaultSell, isL1).value;
    var s2 := UpdateUserVault(s1, bought, o.base.publicKey, o.assetIdBuy, o.vaultBuy, isL1).value;
    TwoVaultsMove(s0, s1, s2, -sold, o.base.publicKey, o.assetIdSell, o.vaultSell, isL1,
                  bought, o.base.publicKey, o.assetIdBuy, o.vaultBuy, isL1);
    SameVaultsMove(s, s0);
    MovesCompose(s, s0, s2, [], [Flow(o.assetIdSell, -sold)] + [Flow(o.assetIdBuy, bought)]);
    assert [] + ([Flow(o.assetIdSell, -sold)] + [Flow(o.assetIdBuy, bought)]) == [Flow(o.assetIdSell, -sold)]
           + [Flow(o.assetIdBuy, bought)];
  }

  lemma {:induction false} OrderFeeMoves(s: Ledger, o: ExchangeOrder, isL1: bool, bought: felt, fee: Option<FeeInfo>)
    requires ValidLedger(s) && UpdateOrderFee(s, o, isL1, bought, fee).Done?
    ensures var t := UpdateOrderFee(s, o, isL1, bought, fee).value;
      Moves(s, t, []) && SameBooks(s, t)
  {
    hide Moves, UpdateFeeVaults, OrderFeeOk;
    if fee.None? {
      SameVaultsMove(s, s);
    } else {
      FeeVaultsMove(s, o.base.publicKey, o.assetIdFee, o.vaultFee, fee.value, isL1);
    }
  }

  /** A limit order moves the sold and the bought amount; its fee stays on the ledger. */
  lemma {:induction false} LimitOrderMoves(s: Ledger, ctx: Context, p: Party, sold: felt, bought: felt)
    requires ValidLedger(s) && ExecuteLimitOrder(s, ctx, p, sold, bought).Done?
    ensures var t := ExecuteLimitOrder(s, ctx, p, sold, bought).value;
      Moves(s, t, [Flow(p.order.assetIdSell, -sold)] + [Flow(p.order.assetIdBuy, bought)])
          && t.modifications == s.modifications
  {
    hide Moves, LimitOrderChecks, GetOrderHash, FulfillSell, UpdateVaultsAndVerify, UpdateOrderFee;
    var o := p.order;
    var hash := GetOrderHash(ctx.pedersen, o, p.fee.Some?);
    var s0 := s.(orders := FulfillSell(s.orders, hash, sold, o.amountSell).value);
    var s1 := UpdateVaultsAndVerify(s0, ctx, o, p.isL1, sold, bought, hash).value;
    var s2 := UpdateOrderFee(s1, o, p.isL1, bought, p.fee).value;
    var flows := [Flow(o.assetIdSell, -sold)] + [Flow(o.assetIdBuy, bought)];
    SameVaultsMove(s, s0);
    OrderVaultsMove(s0, ctx, o, p.isL1, sold, bought, hash);
    MovesIsValid(s0, s1, flows);
    OrderFeeMoves(s1, o, p.isL1, bought, p.fee);
    MovesCompose(s, s0, s1, [], flows);
    MovesCompose(s, s1, s2, [] + flows, []);
    assert [] + flows + [] == flows;
  }

  lemma {:induction false} CrossFlowsCancel(s: Ledger, t: Ledger, x: int, y: int, a: int, b: int)
    requires Moves(s, t, ([Flow(x, -a)] + [Flow(y, b)]) + ([Flow(y, -b)] + [Flow(x, a)]))
    ensures Moves(s, t, [])
  {
    forall tk
      ensures Total(t, tk) == Total(s, tk) + Net([], tk)
    {
      var f, g := [Flow(x, -a)] + [Flow(y, b)], [Flow(y, -b)] + [Flow(x, a)];
      NetConcat(f, g, tk);
      NetConcat([Flow(x, -a)], [Flow(y, b)], tk);
      NetConcat([Flow(y, -b)], [Flow(x, a)], tk);
      SingleNet(Flow(x, -a), tk);
      SingleNet(Flow(y, b), tk);
      SingleNet(Flow(y, -b), tk);
      SingleNet(Flow(x, a), tk);
    }
  }

  /** A settlement conserves every token, whatever vaults the two parties and their fees share. */
  lemma {:induction false} SettlementMoves(s: Ledger, ctx: Context, tx: Transaction)
    requires ValidLedger(s) && tx.Settlement? && ExecuteSettlement(s, ctx, tx).Done?
    ensures var t := ExecuteSettlement(s, ctx, tx).value;
      Moves(s, t, []) && t.modifications == s.modifications
  {
    hide Moves, ExecuteLimitOrder, IsNn;
    var a, b := tx.partyA.order, tx.partyB.order;
    var s1 := ExecuteLimitOrder(s, ctx, tx.partyA, tx.partyASold, tx.partyBSold).value;
    var s2 := ExecuteLimitOrder(s1, ctx, tx.partyB, tx.partyBSold, tx.partyASold).value;
    var f := [Flow(a.assetIdSell, -tx.partyASold)] + [Flow(a.assetIdBuy, tx.partyBSold)];
    var g := [Flow(b.assetIdSell, -tx.partyBSold)] + [Flow(b.assetIdBuy, tx.partyASold)];
    LimitOrderMoves(s, ctx, tx.partyA, tx.partyASold, tx.partyBSold);
    MovesIsValid(s, s1, f);
    LimitOrderMoves(s1, ctx, tx.partyB, tx.partyBSold, tx.partyASold);
    MovesCompose(s, s1, s2, f, g);
    CrossFlowsCancel(s, s2, a.assetIdSell, a.assetIdBuy, tx.partyASold, tx.partyBSold);
  }

  lemma {:induction false} TransferMoves(s: Ledger, ctx: Context, tx: Transaction)
    requires ValidLedger(s) && tx.Transfer? && ExecuteTransfer(s, ctx, tx).Done?
    ensures var t := ExecuteTransfer(s, ctx, tx).value;
      Moves(s, t, []) && t.modifications == s.modifications
  {
    hide Moves, MoveTransfer, TransferChecks, TransferMessage, SpendOnce;
    MoveTransferMoves(s, tx.transfer, tx.fee);
    var s1 := MoveTransfer(s, tx.transfer, tx.fee).value;
    var t := ExecuteTransfer(s, ctx, tx).value;
    MovesIsValid(s, s1, []);
    SameVaultsMove(s1, t);
    MovesCompose(s, s1, t, [], []);
    assert NO_FLOWS + NO_FLOWS == NO_FLOWS;
  }

  lemma {:induction false} MoveTransferMoves(s: Ledger, t: ExchangeTransfer, fee: Option<FeeInfo>)
    requires ValidLedger(s) && MoveTransfer(s, t, fee).Done?
    ensures Moves(s, MoveTransfer(s, t, fee).value, []) && SameBooks(s, MoveTransfer(s, t, fee).value)
  {
    hide Moves, UpdateUserVault, UpdateFeeVaults, TransferFeeOk;
    var s1 := UpdateUserVault(s, -t.amount, t.base.publicKey, t.assetId, t.senderVaultId, false).value;
    var s2 := UpdateUserVault(s1, t.amount, t.receiverPublicKey, t.assetId, t.receiverVaultId, false).value;
    TwoVaultsMove(s, s1, s2, -t.amount, t.base.publicKey, t.assetId, t.senderVaultId, false,
                  t.amount, t.receiverPublicKey, t.assetId, t.receiverVaultId, false);
    OppositeFlowsCancel(s, s2, t.assetId, t.amount);
    if fee.Some? {
      MovesIsValid(s, s2, []);
      FeeVaultsMove(s2, t.base.publicKey, t.assetIdFee, t.srcFeeVaultId, fee.value, false);
      MovesCompose(s, s2, MoveTransfer(s, t, fee).value, [], []);
      assert NO_FLOWS + NO_FLOWS == NO_FLOWS;
    }
  }

  /** Minting adds exactly one unit of a token whose id carries the minting bit. */
  lemma {:induction false} MintMoves(s: Ledger, ctx: Context, tx: Transaction)
    requires ValidLedger(s) && tx.Mint? && ExecuteMint(s, ctx, tx).Done?
    ensures var t := ExecuteMint(s, ctx, tx).value;
      Moves(s, t, [Flow(tx.tokenId, 1)]) && t.modifications == s.modifications
  {
    hide Moves, UpdateUserVault, SpendOnce;
    var orders :=
      if ctx.uniqueMinting then SpendOnce(s.orders, ctx.pedersen(MINT_TREE_INDEX_SALT, tx.tokenId), 1).value
      else s.orders;
    var s0 := s.(orders := orders);
    SameVaultsMove(s, s0);
    UserVaultMoves(s0, 1, tx.starkKey, tx.tokenId, tx.vaultId, false);
    MovesCompose(s, s0, ExecuteMint(s, ctx, tx).value, [], [Flow(tx.tokenId, 1)]);
    assert [] + [Flow(tx.tokenId, 1)] == [Flow(tx.tokenId, 1)];
  }

  // ---- What the output says ----

  /** The fields of an action word, as a reader of the output unpacks them. */
  function ActionDiff(action: int): int {
    action % BALANCE_SHIFT - BALANCE_BOUND
  }

  function ActionVault(action: int): int {
    action / BALANCE_SHIFT % VAULT_SHIFT
  }

  function ActionIsFull(action: int): bool {
    action / FULL_WITHDRAWAL_SHIFT == 1
  }

  /** Packing and unpacking an action word. */
  lemma {:induction false} ActionRoundTrip(isFull: bool, vaultIndex: int, diff: int)
    requires 0 <= vaultIndex < VAULT_SHIFT && -BALANCE_BOUND <= diff < BALANCE_BOUND
    ensures var w := ActionWord(isFull, vaultIndex, diff);
      && 0 <= w < P
      && ActionDiff(w) == diff && ActionVault(w) == vaultIndex && ActionIsFull(w) == isFull
  {
  }

  /** The net amount of a token that entered the ledger according to the output. */
  function NetOutput(ms: seq<ModificationOutput>, tokenId: int): int {
    if ms == [] then 0
    else (if ms[0].tokenId == tokenId then ActionDiff(ms[0].action) else 0) + NetOutput(ms[1..], tokenId)
  }

  lemma {:induction false} NetOutputAppend(ms: seq<ModificationOutput>, m: ModificationOutput, tokenId: int)
    ensures NetOutput(ms + [m], tokenId) == NetOutput(ms, tokenId)
            + (if m.tokenId == tokenId then ActionDiff(m.action) else 0)
  {
    if ms == [] {
      assert ms + [m] == [m];
      assert [m][1..] == [];
    } else {
      assert (ms + [m])[1..] == ms[1..] + [m];
      NetOutputAppend(ms[1..], m, tokenId);
    }
  }

  /** The units that the transactions mint. */
  function Minted(txs: seq<Transaction>, tokenId: int): nat {
    if txs == [] then 0
    else (if txs[0].Mint? && txs[0].tokenId == tokenId then 1 else 0) + Minted(txs[1..], tokenId)
  }

  /** From s to t every token changes by what the new output entries report plus `minted`. */
  ghost predicate Conserves(s: Ledger, t: Ledger, txs: seq<Transaction>) {
    && ValidLedger(t)
    && forall tk ::
         Total(t, tk) ==
         Total(s, tk) + NetOutput(t.modifications, tk) - NetOutput(s.modifications, tk) + Minted(txs, tk)
  }

  lemma {:induction false} SingleMinted(tx: Transaction, tokenId: int)
    ensures Minted([tx], tokenId) == if tx.Mint? && tx.tokenId == tokenId then 1 else 0
  {
    assert [tx][1..] == [];
  }

  lemma {:induction false} UnreportedConserves(s: Ledger, t: Ledger, tx: Transaction, flows: seq<Flow>)
    requires Moves(s, t, flows) && t.modifications == s.modifications
    requires flows == if tx.Mint? then [Flow(tx.tokenId, 1)] else []
    ensures Conserves(s, t, [tx])
  {
    forall tk
      ensures Total(t, tk) == Total(s, tk) + Minted([tx], tk)
    {
      SingleMinted(tx, tk);
      if tx.Mint? { SingleNet(Flow(tx.tokenId, 1), tk); }
    }
  }

  lemma {:induction false} ReportedConserves(s: Ledger, t: Ledger, tx: Transaction, m: ModificationOutput, flow: Flow)
    requires Moves(s, t, [flow]) && t.modifications == s.modifications + [m] && !tx.Mint?
    requires ActionDiff(m.action) == flow.diff && (flow.diff != 0 ==> flow.tokenId == m.tokenId)
    ensures Conserves(s, t, [tx])
  {
    forall tk
      ensures Total(t, tk) == Total(s, tk) + NetOutput(t.modifications, tk) - NetOutput(s.modifications, tk)
              + Minted([tx], tk)
    {
      SingleMinted(tx, tk);
      SingleNet(flow, tk);
      NetOutputAppend(s.modifications, m, tk);
    }
  }

  lemma {:induction false} ModificationConserves(s: Ledger, ctx: Context, tx: Transaction)
    requires ValidLedger(s) && tx.Modification? && ExecuteModification(s, tx).Done?
    ensures Conserves(s, ExecuteModification(s, tx).value, [tx])
  {
    hide Moves, Conserves, UpdateBalances, ActionDiff, ActionWord;
    var before, after := VaultAt(s.vaults, tx.vaultIndex).balance, tx.balanceAfter;
    var action := ActionWord(tx.isFullWithdrawal, tx.vaultIndex, after - before);
    var flow := Flow(tx.tokenId, after - before);
    BalancesMove(s, before, after, tx.starkKey, tx.tokenId, tx.vaultIndex);
    ActionRoundTrip(tx.isFullWithdrawal, tx.vaultIndex, after - before);
    var s1 := s.(vaults := UpdateBalances(s.vaults, before, after, tx.starkKey, tx.tokenId, tx.vaultIndex).value);
    var t := ExecuteModification(s, tx).value;
    MovesIsValid(s, s1, [flow]);
    SameVaultsMove(s1, t);
    MovesCompose(s, s1, t, [flow], []);
    assert [flow] + [] == [flow];
    ReportedConserves(s, t, tx, ModificationOutput(tx.starkKey, tx.tokenId, action), flow);
  }

  /** A false full withdrawal changes no vault and reports a difference of zero. */
  lemma {:induction false} FalseWithdrawalConserves(s: Ledger, ctx: Context, tx: Transaction)
    requires ValidLedger(s) && tx.FalseFullWithdrawal? && ExecuteFalseFullWithdrawal(s, tx).Done?
    ensures Conserves(s, ExecuteFalseFullWithdrawal(s, tx).value, [tx])
    ensures forall i :: VaultAt(ExecuteFalseFullWithdrawal(s, tx).value.vaults, i) == VaultAt(s.vaults, i)
  {
    hide Moves, Conserves;
    var t := ExecuteFalseFullWithdrawal(s, tx).value;
    var before := VaultAt(s.vaults, tx.vaultIndex).balance;
    var action := tx.vaultIndex * BALANCE_SHIFT + BALANCE_BOUND + FULL_WITHDRAWAL_SHIFT;
    var flow := Flow(tx.tokenId, 0);
    BalancesMove(s, before, before, tx.starkKey, tx.tokenId, tx.vaultIndex);
    assert ActionDiff(action) == 0;
    var s1 := s.(vaults := UpdateBalances(s.vaults, before, before, tx.starkKey, tx.tokenId, tx.vaultIndex).value);
    MovesIsValid(s, s1, [flow]);
    SameVaultsMove(s1, t);
    MovesCompose(s, s1, t, [flow], []);
    assert [flow] + [] == [flow];
    ReportedConserves(s, t, tx, ModificationOutput(tx.requesterStarkKey, 0, action), flow);
  }

  lemma {:induction false} StepConserves(s: Ledger, ctx: Context, tx: Transaction)
    requires ValidLedger(s) && ExecuteTransaction(s, ctx, tx).Done?
    ensures Conserves(s, ExecuteTransaction(s, ctx, tx).value, [tx])
  {
    hide Moves, Conserves, ExecuteSettlement, ExecuteTransfer, ExecuteMint, ExecuteFalseFullWithdrawal,
      ExecuteModification;
    var t := ExecuteTransaction(s, ctx, tx).value;
    if tx.Settlement? {
      SettlementMoves(s, ctx, tx);
      UnreportedConserves(s, t, tx, []);
    } else if tx.Transfer? {
      TransferMoves(s, ctx, tx);
      UnreportedConserves(s, t, tx, []);
    } else if tx.Mint? {
      MintMoves(s, ctx, tx);
      UnreportedConserves(s, t, tx, [Flow(tx.tokenId, 1)]);
    } else if tx.FalseFullWithdrawal? {
      FalseWithdrawalConserves(s, ctx, tx);
    } else {
      ModificationConserves(s, ctx, tx);
    }
  }

  lemma {:induction false} ConservesCompose(a: Ledger, b: Ledger, c: Ledger, tx: Transaction, rest: seq<Transaction>)
    requires Conserves(a, b, [tx]) && Conserves(b, c, rest)
    ensures Conserves(a, c, [tx] + rest)
  {
    forall tk
      ensures Minted([tx] + rest, tk) == Minted([tx], tk) + Minted(rest, tk)
    {
      SingleMinted(tx, tk);
      assert ([tx] + rest)[1..] == rest;
    }
  }

  /** Over any batch and for every token, the final total over all L2 and L1 vaults exceeds the
      initial one by the signed differences of the modifications, read from the output, plus the
      minted units; and every vault balance stays in [0, 2^63). */
  lemma {:induction false} BatchConserves(s: Ledger, ctx: Context, txs: seq<Transaction>)
    requires ValidLedger(s) && ExecuteBatch(s, ctx, txs).Done?
    ensures Conserves(s, ExecuteBatch(s, ctx, txs).value, txs)
    decreases |txs|
  {
    hide Conserves, ExecuteTransaction;
    if txs == [] {
      NothingConserves(s);
    } else {
      var s1 := ExecuteTransaction(s, ctx, txs[0]).value;
      StepConserves(s, ctx, txs[0]);
      ConservesIsValid(s, s1, [txs[0]]);
      BatchConserves(s1, ctx, txs[1..]);
      ConservesCompose(s, s1, ExecuteBatch(s1, ctx, txs[1..]).value, txs[0], txs[1..]);
      assert [txs[0]] + txs[1..] == txs;
    }
  }

  lemma {:induction false} NothingConserves(s: Ledger)
    requires ValidLedger(s)
    ensures Conserves(s, s, [])
  {
  }

  lemma {:induction false} ConservesIsValid(s: Ledger, t: Ledger, txs: seq<Transaction>)
    requires Conserves(s, t, txs)
    ensures ValidLedger(t)
  {
  }
}
