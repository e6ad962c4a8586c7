/** Who gets what on the spot ledger: every transaction books its amounts on the L2 vaults it names,
    under the keys and tokens it names, and on no others. */
module DexJournal {
  import opened Felt
  import opened Options
  import opened Dex
  import opened DexConservation

  /** An amount of a token credited to a vault of a key. */
  datatype Entry = Entry(vault: int, key: int, tokenId: int, diff: int)

  function Credit(es: seq<Entry>, vault: int): int {
    if es == [] then 0 else (if es[0].vault == vault then es[0].diff else 0) + Credit(es[1..], vault)
  }

  predicate Names(es: seq<Entry>, v: VaultState, vault: int) {
    exists k :: 0 <= k < |es| && es[k].vault == vault && es[k].key == v.starkKey && es[k].tokenId == v.tokenId
  }

  predicate Touches(es: seq<Entry>, vault: int) {
    exists k :: 0 <= k < |es| && es[k].vault == vault
  }

  /** Some entry takes units of the vault's key and token. */
  predicate Debits(es: seq<Entry>, v: VaultState, vault: int) {
    exists k :: 0 <= k < |es| && es[k].diff < 0 && es[k].vault == vault && es[k].key == v.starkKey
        && es[k].tokenId == v.tokenId
  }

  /** The same key and token, and no fewer units. */
  predicate Keeps(v: VaultState, w: VaultState) {
    w.starkKey == v.starkKey && w.tokenId == v.tokenId && v.balance <= w.balance
  }

  /** After the entries have been booked: every balance has changed by its credits, untouched vaults
      are the same, a touched vault that held or holds units belongs to a key and token that an entry
      names for it, and a vault loses units or its owner only where an entry takes from that owner. */
  ghost predicate Booked(a: Vaults, b: Vaults, es: seq<Entry>) {
    && ValidVaults(b)
    && (forall i :: VaultAt(b, i).balance == VaultAt(a, i).balance + Credit(es, i))
    && (forall i :: !Touches(es, i) ==> VaultAt(b, i) == VaultAt(a, i))
    && (forall i :: Touches(es, i) && VaultAt(a, i).balance != 0 ==> Names(es, VaultAt(a, i), i))
    && (forall i :: Touches(es, i) && VaultAt(b, i).balance != 0 ==> Names(es, VaultAt(b, i), i))
    && (forall i :: VaultAt(a, i).balance > 0 ==> Debits(es, VaultAt(a, i), i) || Keeps(VaultAt(a, i), VaultAt(b, i)))
  }

  lemma {:induction false} CreditConcat(a: seq<Entry>, b: seq<Entry>, vault: int)
    ensures Credit(a + b, vault) == Credit(a, vault) + Credit(b, vault)
  {
    if a == [] {
      assert a + b == b;
    } else {
      assert (a + b)[1..] == a[1..] + b;
      CreditConcat(a[1..], b, vault);
    }
  }

  lemma {:induction false} TouchesConcat(a: seq<Entry>, b: seq<Entry>, v: VaultState, vault: int)
    ensures Touches(a + b, vault) <==> Touches(a, vault) || Touches(b, vault)
    ensures Names(a, v, vault) || Names(b, v, vault) ==> Names(a + b, v, vault)
    ensures Debits(a, v, vault) || Debits(b, v, vault) ==> Debits(a + b, v, vault)
  {
    var all := a + b;
    assert forall k :: 0 <= k < |a| ==> all[k] == a[k];
    assert forall k :: 0 <= k < |b| ==> all[|a| + k] == b[k];
  }

  lemma {:induction false} BookedInTurn(a: Vaults, b: Vaults, c: Vaults, es: seq<Entry>, fs: seq<Entry>)
    requires Booked(a, b, es) && Booked(b, c, fs)
    ensures Booked(a, c, es + fs)
  {
    hide Names, Touches, Debits;
    forall i
      ensures VaultAt(c, i).balance == VaultAt(a, i).balance + Credit(es + fs, i)
      ensures !Touches(es + fs, i) ==> VaultAt(c, i) == VaultAt(a, i)
      ensures Touches(es + fs, i) && VaultAt(a, i).balance != 0 ==> Names(es + fs, VaultAt(a, i), i)
      ensures Touches(es + fs, i) && VaultAt(c, i).balance != 0 ==> Names(es + fs, VaultAt(c, i), i)
      ensures VaultAt(a, i).balance > 0 ==> Debits(es + fs, VaultAt(a, i), i) || Keeps(VaultAt(a, i), VaultAt(c, i))
    {
      CreditConcat(es, fs, i);
      TouchesConcat(es, fs, VaultAt(a, i), i);
      TouchesConcat(es, fs, VaultAt(c, i), i);
      if VaultAt(a, i).balance > 0 && !Debits(es, VaultAt(a, i), i) { SameDebits(fs, VaultAt(a, i), VaultAt(b, i), i); }
    }
  }

  lemma {:induction false} SameDebits(es: seq<Entry>, v: VaultState, w: VaultState, vault: int)
    requires Keeps(v, w)
    ensures Debits(es, v, vault) <==> Debits(es, w, vault)
  {
  }

  lemma {:induction false} SameVaultsBooked(a: Vaults)
    requires ValidVaults(a)
    ensures Booked(a, a, [])
  {
  }

  lemma {:induction false} VaultBooked(a: Vaults, before: int, after: int, e: Entry)
    requires ValidVaults(a) && 0 <= after < BALANCE_BOUND && e.diff == after - before
    requires UpdateBalances(a, before, after, e.key, e.tokenId, e.vault).Done?
    ensures Booked(a, UpdateBalances(a, before, after, e.key, e.tokenId, e.vault).value, [e])
  {
    assert [e][1..] == [] && [e][0] == e;
  }

  /** One update of a user's vault: an entry on L2, none on L1. */
  function UserEntries(diff: int, key: int, tokenId: int, vault: int, onL1: bool): seq<Entry> {
    if onL1 then [] else [Entry(vault, key, tokenId, diff)]
  }

  lemma {:induction false} UserVaultBooked(s: Ledger, diff: felt, key: int, tokenId: int, vault: int, onL1: bool)
    requires ValidLedger(s) && UpdateUserVault(s, diff, key, tokenId, vault, onL1).Done?
    ensures ValidLedger(UpdateUserVault(s, diff, key, tokenId, vault, onL1).value)
    ensures Booked(s.vaults, UpdateUserVault(s, diff, key, tokenId, vault, onL1).value.vaults,
                   UserEntries(diff, key, tokenId, vault, onL1))
  {
    hide Moves, Booked, UpdateBalances, UpdateL1Diff, IsNn, GetVaultState;
    UserVaultMoves(s, diff, key, tokenId, vault, onL1);
    MovesIsValid(s, UpdateUserVault(s, diff, key, tokenId, vault, onL1).value, [Flow(tokenId, diff)]);
    if onL1 {
      SameVaultsBooked(s.vaults);
    } else {
      var before := VaultAt(s.vaults, vault).balance;
      RangeChecksDecide(before, diff);
      VaultBooked(s.vaults, before, before + diff, Entry(vault, key, tokenId, diff));
    }
  }

  lemma {:induction false} TwoVaultsBooked(s: Ledger, s1: Ledger, s2: Ledger,
                                           diff1: felt, key1: int, token1: int, vault1: int, onL11: bool,
                                           diff2: felt, key2: int, token2: int, vault2: int, onL12: bool)
    requires ValidLedger(s)
    requires UpdateUserVault(s, diff1, key1, token1, vault1, onL11) == Done(s1)
    requires UpdateUserVault(s1, diff2, key2, token2, vault2, onL12) == Done(s2)
    ensures ValidLedger(s2)
    ensures Booked(s.vaults, s2.vaults, UserEntries(diff1, key1, token1, vault1, onL11)
                   + UserEntries(diff2, key2, token2, vault2, onL12))
  {
    hide UpdateUserVault, Booked, UserEntries;
    UserVaultBooked(s, diff1, key1, token1, vault1, onL11);
    UserVaultBooked(s1, diff2, key2, token2, vault2, onL12);
    BookedInTurn(s.vaults, s1.vaults, s2.vaults, UserEntries(diff1, key1, token1, vault1, onL11),
                 UserEntries(diff2, key2, token2, vault2, onL12));
  }

  // ---- The journal of each transaction ----

  function FeeEntries(userKey: int, tokenId: int, sourceVault: int, fee: FeeInfo, fromL1: bool): seq<Entry> {
    UserEntries(-fee.feeTaken, userKey, tokenId, sourceVault, fromL1)
    + UserEntries(fee.feeTaken, fee.destinationStarkKey, tokenId, fee.destinationVaultId, false)
  }

  /** A party sells from one vault, buys into another and pays its fee. */
  function PartyEntries(p: Party, sold: int, bought: int): seq<Entry> {
    var o := p.order;
    (UserEntries(-sold, o.base.publicKey, o.assetIdSell, o.vaultSell, p.isL1)
     + UserEntries(bought, o.base.publicKey, o.assetIdBuy, o.vaultBuy, p.isL1))
    + (if p.fee.Some? then FeeEntries(o.base.publicKey, o.assetIdFee, o.vaultFee, p.fee.value, p.isL1) else [])
  }

  function TransferEntries(t: ExchangeTransfer, fee: Option<FeeInfo>): seq<Entry> {
    (UserEntries(-t.amount, t.base.publicKey, t.assetId, t.senderVaultId, false)
     + UserEntries(t.amount, t.receiverPublicKey, t.assetId, t.receiverVaultId, false))
    + (if fee.Some? then FeeEntries(t.base.publicKey, t.assetIdFee, t.srcFeeVaultId, fee.value, false) else [])
  }

  function Entries(s: Ledger, tx: Transaction): seq<Entry> {
    match tx
    case Settlement(a, b, soldA, soldB) => PartyEntries(a, soldA, soldB) + PartyEntries(b, soldB, soldA)
    case Transfer(t, _, fee) => TransferEntries(t, fee)
    case Mint(tokenId, vault, key) => [Entry(vault, key, tokenId, 1)]
    case Modification(key, tokenId, vault, after,
                      _) => [Entry(vault, key, tokenId, after - VaultAt(s.vaults, vault).balance)]
    case FalseFullWithdrawal(_, key, tokenId, vault) => [Entry(vault, key, tokenId, 0)]
  }

  lemma {:induction false} FeeBooked(s: Ledger, userKey: int, tokenId: int, sourceVault: int, fee: FeeInfo,
                                     fromL1: bool)
    requires ValidLedger(s) && UpdateFeeVaults(s, userKey, tokenId, sourceVault, fee, fromL1).Done?
    ensures var t := UpdateFeeVaults(s, userKey, tokenId, sourceVault, fee, fromL1).value;
      ValidLedger(t) && Booked(s.vaults, t.vaults, FeeEntries(userKey, tokenId, sourceVault, fee, fromL1))
  {
    hide UpdateUserVault, Booked, UserEntries;
    var s1 := UpdateUserVault(s, -fee.feeTaken, userKey, tokenId, sourceVault, fromL1).value;
    TwoVaultsBooked(s, s1, UpdateFeeVaults(s, userKey, tokenId, sourceVault, fee, fromL1).value,
                    -fee.feeTaken, userKey, tokenId, sourceVault, fromL1,
                    fee.feeTaken, fee.destinationStarkKey, tokenId, fee.destinationVaultId, false);
  }

  lemma {:induction false} OrderVaultsBooked(s: Ledger, ctx: Context, o: ExchangeOrder, isL1: bool, sold: felt,
                                             bought: felt, hash: int)
    requires ValidLedger(s) && UpdateVaultsAndVerify(s, ctx, o, isL1, sold, bought, hash).Done?
    ensures var t := UpdateVaultsAndVerify(s, ctx, o, isL1, sold, bought, hash).value;
      && ValidLedger(t)
      && Booked(s.vaults, t.vaults, UserEntries(-sold, o.base.publicKey, o.assetIdSell, o.vaultSell, isL1)
                                    + UserEntries(bought, o.base.publicKey, o.assetIdBuy, o.vaultBuy, isL1))
  {
    hide UpdateUserVault, Booked, UserEntries, AddToSet;
    var s0 :=
      if isL1 then s.(l1Messages := AddToSet(s.l1Messages, L1OrderMessage(o.base.publicKey, FieldsOf(o))))
      else s;
    var s1 := UpdateUserVault(s0, -sold, o.base.publicKey, o.assetIdSell, o.vaultSell, isL1).value;
    TwoVaultsBooked(s0, s1, UpdateVaultsAndVerify(s, ctx, o, isL1, sold, bought, hash).value,
                    -sold, o.base.publicKey, o.assetIdSell, o.vaultSell, isL1,
                    bought, o.base.publicKey, o.assetIdBuy, o.vaultBuy, isL1);
  }

  lemma {:induction false} PartyBooked(s: Ledger, ctx: Context, p: Party, sold: felt, bought: felt)
    requires ValidLedger(s) && ExecuteLimitOrder(s, ctx, p, sold, bought).Done?
    ensures var t := ExecuteLimitOrder(s, ctx, p, sold, bought).value;
      ValidLedger(t) && Booked(s.vaults, t.vaults, PartyEntries(p, sold, bought))
  {
    hide Booked, UserEntries, LimitOrderChecks, GetOrderHash, UpdateVaultsAndVerify, UpdateFeeVaults, OrderFeeOk,
      FeeEntries;
    var o := p.order;
    var hash := GetOrderHash(ctx.pedersen, o, p.fee.Some?);
    var s0 := s.(orders := FulfillSell(s.orders, hash, sold, o.amountSell).value);
    OrderVaultsBooked(s0, ctx, o, p.isL1, sold, bought, hash);
    var s1 := UpdateVaultsAndVerify(s0, ctx, o, p.isL1, sold, bought, hash).value;
    var trade := UserEntries(-sold, o.base.publicKey, o.assetIdSell, o.vaultSell, p.isL1)
                 + UserEntries(bought, o.base.publicKey, o.assetIdBuy, o.vaultBuy, p.isL1);
    if p.fee.Some? {
      FeeBooked(s1, o.base.publicKey, o.assetIdFee, o.vaultFee, p.fee.value, p.isL1);
      BookedInTurn(s.vaults, s1.vaults, ExecuteLimitOrder(s, ctx, p, sold, bought).value.vaults, trade,
                   FeeEntries(o.base.publicKey, o.assetIdFee, o.vaultFee, p.fee.value, p.isL1));
    } else {
      assert trade + [] == trade;
    }
  }

  lemma {:induction false} SettlementBooked(s: Ledger, ctx: Context, tx: Transaction)
    requires ValidLedger(s) && tx.Settlement? && ExecuteSettlement(s, ctx, tx).Done?
    ensures Booked(s.vaults, ExecuteSettlement(s, ctx, tx).value.vaults, Entries(s, tx))
  {
    hide Booked, ExecuteLimitOrder, PartyEntries, IsNn;
    PartyBooked(s, ctx, tx.partyA, tx.partyASold, tx.partyBSold);
    var s1 := ExecuteLimitOrder(s, ctx, tx.partyA, tx.partyASold, tx.partyBSold).value;
    PartyBooked(s1, ctx, tx.partyB, tx.partyBSold, tx.partyASold);
    var s2 := ExecuteLimitOrder(s1, ctx, tx.partyB, tx.partyBSold, tx.partyASold).value;
    BookedInTurn(s.vaults, s1.vaults, s2.vaults, PartyEntries(tx.partyA, tx.partyASold, tx.partyBSold),
                 PartyEntries(tx.partyB, tx.partyBSold, tx.partyASold));
  }

  lemma {:induction false} TransferBooked(s: Ledger, t: ExchangeTransfer, fee: Option<FeeInfo>)
    requires ValidLedger(s) && MoveTransfer(s, t, fee).Done?
    ensures Booked(s.vaults, MoveTransfer(s, t, fee).value.vaults, TransferEntries(t, fee))
  {
    hide Booked, UserEntries, UpdateUserVault, UpdateFeeVaults, TransferFeeOk, FeeEntries;
    var s1 := UpdateUserVault(s, -t.amount, t.base.publicKey, t.assetId, t.senderVaultId, false).value;
    var s2 := UpdateUserVault(s1, t.amount, t.receiverPublicKey, t.assetId, t.receiverVaultId, false).value;
    TwoVaultsBooked(s, s1, s2, -t.amount, t.base.publicKey, t.assetId, t.senderVaultId, false,
                    t.amount, t.receiverPublicKey, t.assetId, t.receiverVaultId, false);
    var moved := UserEntries(-t.amount, t.base.publicKey, t.assetId, t.senderVaultId, false)
                 + UserEntries(t.amount, t.receiverPublicKey, t.assetId, t.receiverVaultId, false);
    if fee.Some? {
      FeeBooked(s2, t.base.publicKey, t.assetIdFee, t.srcFeeVaultId, fee.value, false);
      BookedInTurn(s.vaults, s2.vaults, MoveTransfer(s, t, fee).value.vaults, moved,
                   FeeEntries(t.base.publicKey, t.assetIdFee, t.srcFeeVaultId, fee.value, false));
    } else {
      assert moved + [] == moved;
    }
  }

  /** Every accepted transaction books exactly its journal on the L2 vaults: the amounts go from and
      to the vaults, keys and tokens of its roles, also where one vault plays several, and no other
      vault changes. */
  lemma {:induction false} TransactionBooked(s: Ledger, ctx: Context, tx: Transaction)
    requires ValidLedger(s) && ExecuteTransaction(s, ctx, tx).Done?
    ensures Booked(s.vaults, ExecuteTransaction(s, ctx, tx).value.vaults, Entries(s, tx))
  {
    hide Booked, ExecuteSettlement, MoveTransfer, UpdateUserVault, UpdateBalances, TransferEntries, PartyEntries,
      TransferChecks, TransferMessage, SpendOnce, ActionWord, IsNn;
    if tx.Settlement? {
      SettlementBooked(s, ctx, tx);
    } else if tx.Transfer? {
      TransferBooked(s, tx.transfer, tx.fee);
    } else if tx.Mint? {
      var orders :=
        if ctx.uniqueMinting then SpendOnce(s.orders, ctx.pedersen(MINT_TREE_INDEX_SALT, tx.tokenId), 1).value
        else s.orders;
      UserVaultBooked(s.(orders := orders), 1, tx.starkKey, tx.tokenId, tx.vaultId, false);
    } else {
      ModificationBooked(s, ctx, tx);
    }
  }

  lemma {:induction false} ModificationBooked(s: Ledger, ctx: Context, tx: Transaction)
    requires ValidLedger(s) && (tx.Modification? || tx.FalseFullWithdrawal?) && ExecuteTransaction(s, ctx, tx).Done?
    ensures Booked(s.vaults, ExecuteTransaction(s, ctx, tx).value.vaults, Entries(s, tx))
  {
    hide Booked, UpdateBalances, ActionWord;
    var before := VaultAt(s.vaults, tx.vaultIndex).balance;
    if tx.Modification? {
      VaultBooked(s.vaults, before, tx.balanceAfter,
                  Entry(tx.vaultIndex, tx.starkKey, tx.tokenId, tx.balanceAfter - before));
    } else {
      VaultBooked(s.vaults, before, before, Entry(tx.vaultIndex, tx.starkKey, tx.tokenId, 0));
    }
  }

  // ---- Outputs ----

  /** The modification record a transaction writes. */
  function ModificationsOf(s: Ledger, tx: Transaction): seq<ModificationOutput> {
    if tx.Modification? then
      [ModificationOutput(tx.starkKey, tx.tokenId,
                          ActionWord(tx.isFullWithdrawal, tx.vaultIndex,
                                     tx.balanceAfter - VaultAt(s.vaults, tx.vaultIndex).balance))]
    else if tx.FalseFullWithdrawal?
        then [ModificationOutput(tx.requesterStarkKey, 0, ActionWord(true, tx.vaultIndex, 0))]
    else []
  }

  function ConditionsOf(tx: Transaction): seq<int> {
    if tx.Transfer? && tx.condition != 0 then [tx.condition] else []
  }

  lemma {:induction false} LimitOrderWrites(s: Ledger, ctx: Context, p: Party, sold: int, bought: int)
    requires ExecuteLimitOrder(s, ctx, p, sold, bought).Done?
    ensures var t := ExecuteLimitOrder(s, ctx, p, sold, bought).value;
      t.modifications == s.modifications && t.conditions == s.conditions
  {
    hide LimitOrderChecks, GetOrderHash, FulfillSell, UpdateDiff, UpdateL1Diff, OrderFeeOk, AddToSet;
  }

  /** A transaction writes its modification record and its condition, and nothing else. */
  lemma {:induction false} TransactionWrites(s: Ledger, ctx: Context, tx: Transaction)
    requires ExecuteTransaction(s, ctx, tx).Done?
    ensures var t := ExecuteTransaction(s, ctx, tx).value;
      t.modifications == s.modifications + ModificationsOf(s, tx) && t.conditions == s.conditions + ConditionsOf(tx)
  {
    hide ExecuteLimitOrder, UpdateDiff, UpdateL1Diff, UpdateBalances, TransferChecks, TransferMessage, SpendOnce,
      TransferFeeOk, IsNn;
    if tx.Settlement? {
      LimitOrderWrites(s, ctx, tx.partyA, tx.partyASold, tx.partyBSold);
      var s1 := ExecuteLimitOrder(s, ctx, tx.partyA, tx.partyASold, tx.partyBSold).value;
      LimitOrderWrites(s1, ctx, tx.partyB, tx.partyBSold, tx.partyASold);
    }
  }
}
