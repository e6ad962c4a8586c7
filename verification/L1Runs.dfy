/** The pre-computed L1 dictionary, end to end: a batch that is accepted from any balances of the L1
    vaults is accepted from the computed ones, and the output then reports the sums of their changes. */
module L1Runs {
  import opened Felt
  import opened Options
  import opened Dex
  import opened L1Minimal

  function WithL1(s: Ledger, l1Vaults: L1Vaults): Ledger {
    s.(l1Vaults := l1Vaults)
  }

  // ---- The L1 dictionary is independent of the rest of the ledger ----

  /** From another L1 dictionary a step reaches the same ledger, but for the L1 dictionary, which
      undergoes the events. */
  predicate Swaps(t: Ledger, r: Outcome<Ledger>, other: L1Vaults, es: seq<Event<L1VaultKey>>) {
    RunL1(other, ToL1(es)).Done? ==> r == Done(WithL1(t, RunL1(other, ToL1(es)).value))
  }

  lemma {:induction false} SplitRun(other: L1Vaults, es: seq<Event<L1VaultKey>>, fs: seq<Event<L1VaultKey>>)
    requires RunL1(other, ToL1(es + fs)).Done?
    ensures RunL1(other, ToL1(es)).Done?
    ensures RunL1(RunL1(other, ToL1(es)).value, ToL1(fs)) == RunL1(other, ToL1(es + fs))
  {
    ToL1Concat(es, fs);
    RunL1Concat(other, ToL1(es), ToL1(fs));
  }

  lemma {:induction false} NoRun(other: L1Vaults)
    ensures RunL1(other, ToL1([])) == Done(other)
  {
  }

  function UserEvents(diff: int, key: int, tokenId: int, vault: int, onL1: bool): seq<Event<L1VaultKey>> {
    if onL1 then [Event(L1VaultKey(key, tokenId, vault), diff)] else []
  }

  lemma {:induction false} UserVaultSwaps(s: Ledger, diff: int, key: int, tokenId: int, vault: int, onL1: bool,
                                          other: L1Vaults)
    requires UpdateUserVault(s, diff, key, tokenId, vault, onL1).Done?
    ensures Swaps(UpdateUserVault(s, diff, key, tokenId, vault, onL1).value,
                  UpdateUserVault(WithL1(s, other), diff, key, tokenId, vault, onL1), other,
                      UserEvents(diff, key, tokenId, vault, onL1))
  {
    hide UpdateL1Diff, UpdateDiff;
    NoRun(other);
    if onL1 {
      var e := Event(L1VaultKey(key, tokenId, vault), diff);
      assert ToL1([e]) == [Event(e.key.DictKey(), diff)];
      RunOne(other, Event(e.key.DictKey(), diff));
    }
  }

  lemma {:induction false} OrderVaultsSwap(s: Ledger, ctx: Context, o: ExchangeOrder, isL1: bool, sold: int,
                                           bought: int, hash: int, other: L1Vaults)
    requires UpdateVaultsAndVerify(s, ctx, o, isL1, sold, bought, hash).Done?
    ensures Swaps(UpdateVaultsAndVerify(s, ctx, o, isL1, sold, bought, hash).value,
                  UpdateVaultsAndVerify(WithL1(s, other), ctx, o, isL1, sold, bought, hash), other,
                  UserEvents(-sold, o.base.publicKey, o.assetIdSell, o.vaultSell, isL1)
                  + UserEvents(bought, o.base.publicKey, o.assetIdBuy, o.vaultBuy, isL1))
  {
    hide UpdateUserVault, AddToSet, UserEvents, RunL1;
    var s0 :=
      if isL1 then s.(l1Messages := AddToSet(s.l1Messages, L1OrderMessage(o.base.publicKey, FieldsOf(o))))
      else s;
    var s1 := UpdateUserVault(s0, -sold, o.base.publicKey, o.assetIdSell, o.vaultSell, isL1).value;
    var es := UserEvents(-sold, o.base.publicKey, o.assetIdSell, o.vaultSell, isL1);
    var fs := UserEvents(bought, o.base.publicKey, o.assetIdBuy, o.vaultBuy, isL1);
    if RunL1(other, ToL1(es + fs)).Done? {
      SplitRun(other, es, fs);
      UserVaultSwaps(s0, -sold, o.base.publicKey, o.assetIdSell, o.vaultSell, isL1, other);
      UserVaultSwaps(s1, bought, o.base.publicKey, o.assetIdBuy, o.vaultBuy, isL1, RunL1(other, ToL1(es)).value);
    }
  }

  lemma {:induction false} OrderFeeSwaps(s: Ledger, p: Party, bought: int, other: L1Vaults)
    requires UpdateOrderFee(s, p.order, p.isL1, bought, p.fee).Done?
    ensures Swaps(UpdateOrderFee(s, p.order, p.isL1, bought, p.fee).value,
                  UpdateOrderFee(WithL1(s, other), p.order, p.isL1, bought, p.fee), other,
                  if p.fee.Some? then UserEvents(-p.fee.value.feeTaken, p.order.base.publicKey, p.order.assetIdFee,
                                                 p.order.vaultFee, p.isL1) else [])
  {
    hide UpdateUserVault, OrderFeeOk, UserEvents, RunL1;
    NoRun(other);
    if p.fee.Some? {
      var o, f := p.order, p.fee.value;
      var s1 := UpdateUserVault(s, -f.feeTaken, o.base.publicKey, o.assetIdFee, o.vaultFee, p.isL1).value;
      var es := UserEvents(-f.feeTaken, o.base.publicKey, o.assetIdFee, o.vaultFee, p.isL1);
      UserVaultSwaps(s, -f.feeTaken, o.base.publicKey, o.assetIdFee, o.vaultFee, p.isL1, other);
      if RunL1(other, ToL1(es)).Done? { DestinationSwaps(s1, f, o.assetIdFee, RunL1(other, ToL1(es)).value); }
    }
  }

  lemma {:induction false} DestinationSwaps(s: Ledger, f: FeeInfo, tokenId: int, other: L1Vaults)
    requires UpdateUserVault(s, f.feeTaken, f.destinationStarkKey, tokenId, f.destinationVaultId, false).Done?
    ensures UpdateUserVault(WithL1(s, other), f.feeTaken, f.destinationStarkKey, tokenId, f.destinationVaultId, false)
         == Done(WithL1(UpdateUserVault(s, f.feeTaken, f.destinationStarkKey, tokenId, f.destinationVaultId,
                                        false).value, other))
  {
    hide UpdateDiff;
  }

  lemma {:induction false} PartySwaps(s: Ledger, ctx: Context, p: Party, sold: int, bought: int, other: L1Vaults)
    requires ExecuteLimitOrder(s, ctx, p, sold, bought).Done?
    ensures Swaps(ExecuteLimitOrder(s, ctx, p, sold, bought).value,
                  ExecuteLimitOrder(WithL1(s, other), ctx, p, sold, bought), other, PartyEvents(p, sold, bought))
  {
    hide LimitOrderChecks, GetOrderHash, UpdateVaultsAndVerify, UpdateOrderFee, RunL1;
    var o := p.order;
    var hash := GetOrderHash(ctx.pedersen, o, p.fee.Some?);
    var s0 := s.(orders := FulfillSell(s.orders, hash, sold, o.amountSell).value);
    var s1 := UpdateVaultsAndVerify(s0, ctx, o, p.isL1, sold, bought, hash).value;
    var es := UserEvents(-sold, o.base.publicKey, o.assetIdSell, o.vaultSell, p.isL1)
              + UserEvents(bought, o.base.publicKey, o.assetIdBuy, o.vaultBuy, p.isL1);
    var fs :=
      if p.fee.Some? then UserEvents(-p.fee.value.feeTaken, o.base.publicKey, o.assetIdFee, o.vaultFee, p.isL1)
      else [];
    assert PartyEvents(p, sold, bought) == es + fs;
    if RunL1(other, ToL1(es + fs)).Done? {
      SplitRun(other, es, fs);
      OrderVaultsSwap(s0, ctx, o, p.isL1, sold, bought, hash, other);
      OrderFeeSwaps(s1, p, bought, RunL1(other, ToL1(es)).value);
    }
  }

  lemma {:induction false} SettlementSwaps(s: Ledger, ctx: Context, tx: Transaction, other: L1Vaults)
    requires tx.Settlement? && ExecuteSettlement(s, ctx, tx).Done?
    ensures Swaps(ExecuteSettlement(s, ctx, tx).value, ExecuteSettlement(WithL1(s, other), ctx, tx), other,
                  TransactionEvents(tx))
  {
    hide ExecuteLimitOrder, PartyEvents, IsNn, RunL1;
    var s1 := ExecuteLimitOrder(s, ctx, tx.partyA, tx.partyASold, tx.partyBSold).value;
    var es := PartyEvents(tx.partyA, tx.partyASold, tx.partyBSold);
    var fs := PartyEvents(tx.partyB, tx.partyBSold, tx.partyASold);
    if RunL1(other, ToL1(es + fs)).Done? {
      SplitRun(other, es, fs);
      PartySwaps(s, ctx, tx.partyA, tx.partyASold, tx.partyBSold, other);
      PartySwaps(s1, ctx, tx.partyB, tx.partyBSold, tx.partyASold, RunL1(other, ToL1(es)).value);
    }
  }

  lemma {:induction false} L2VaultSwaps(s: Ledger, diff: int, key: int, tokenId: int, vault: int, other: L1Vaults)
    ensures var r := UpdateUserVault(s, diff, key, tokenId, vault, false);
      UpdateUserVault(WithL1(s, other), diff, key, tokenId, vault, false) ==
      if r.Done? then Done(WithL1(r.value, other)) else Abort
  {
    hide UpdateDiff;
  }

  lemma {:induction false} MoveTransferSwaps(s: Ledger, t: ExchangeTransfer, fee: Option<FeeInfo>, other: L1Vaults)
    requires MoveTransfer(s, t, fee).Done?
    ensures MoveTransfer(WithL1(s, other), t, fee) == Done(WithL1(MoveTransfer(s, t, fee).value, other))
  {
    hide UpdateUserVault, TransferFeeOk;
    L2VaultSwaps(s, -t.amount, t.base.publicKey, t.assetId, t.senderVaultId, other);
    var s1 := UpdateUserVault(s, -t.amount, t.base.publicKey, t.assetId, t.senderVaultId, false).value;
    L2VaultSwaps(s1, t.amount, t.receiverPublicKey, t.assetId, t.receiverVaultId, other);
    var s2 := UpdateUserVault(s1, t.amount, t.receiverPublicKey, t.assetId, t.receiverVaultId, false).value;
    if fee.Some? {
      var f := fee.value;
      L2VaultSwaps(s2, -f.feeTaken, t.base.publicKey, t.assetIdFee, t.srcFeeVaultId, other);
      var s3 := UpdateUserVault(s2, -f.feeTaken, t.base.publicKey, t.assetIdFee, t.srcFeeVaultId, false).value;
      L2VaultSwaps(s3, f.feeTaken, f.destinationStarkKey, t.assetIdFee, f.destinationVaultId, other);
    }
  }

  lemma {:induction false} OthersSwap(s: Ledger, ctx: Context, tx: Transaction, other: L1Vaults)
    requires !tx.Settlement? && ExecuteTransaction(s, ctx, tx).Done?
    ensures ExecuteTransaction(WithL1(s, other), ctx, tx) == Done(WithL1(ExecuteTransaction(s, ctx, tx).value, other))
  {
    hide MoveTransfer, TransferChecks, TransferMessage, SpendOnce, UpdateUserVault, UpdateBalances, IsNn, ActionWord;
    if tx.Transfer? {
      MoveTransferSwaps(s, tx.transfer, tx.fee, other);
    } else if tx.Mint? {
      var orders :=
        if ctx.uniqueMinting then SpendOnce(s.orders, ctx.pedersen(MINT_TREE_INDEX_SALT, tx.tokenId), 1).value
        else s.orders;
      L2VaultSwaps(s.(orders := orders), 1, tx.starkKey, tx.tokenId, tx.vaultId, other);
    }
  }

  lemma {:induction false} TransactionSwaps(s: Ledger, ctx: Context, tx: Transaction, other: L1Vaults)
    requires ExecuteTransaction(s, ctx, tx).Done?
    ensures Swaps(ExecuteTransaction(s, ctx, tx).value, ExecuteTransaction(WithL1(s, other), ctx, tx), other,
                  TransactionEvents(tx))
  {
    if tx.Settlement? {
      hide ExecuteSettlement, TransactionEvents, RunL1, ToL1;
      SettlementSwaps(s, ctx, tx, other);
    } else {
      hide ExecuteTransfer, ExecuteMint, ExecuteModification, ExecuteFalseFullWithdrawal;
      OthersSwap(s, ctx, tx, other);
      NoRun(other);
    }
  }

  /** A batch that is accepted from one L1 dictionary is accepted from every other one on which its L1
      events run, with the same result but for the L1 dictionary. */
  lemma {:induction false} BatchSwaps(s: Ledger, ctx: Context, txs: seq<Transaction>, other: L1Vaults)
    requires ExecuteBatch(s, ctx, txs).Done?
    ensures Swaps(ExecuteBatch(s, ctx, txs).value, ExecuteBatch(WithL1(s, other), ctx, txs), other, BatchEvents(txs))
    decreases |txs|
  {
    hide ExecuteTransaction, TransactionEvents, RunL1;
    NoRun(other);
    if txs != [] {
      var s1 := ExecuteTransaction(s, ctx, txs[0]).value;
      var es, fs := TransactionEvents(txs[0]), BatchEvents(txs[1..]);
      if RunL1(other, ToL1(es + fs)).Done? {
        SplitRun(other, es, fs);
        TransactionSwaps(s, ctx, txs[0], other);
        BatchSwaps(s1, ctx, txs[1..], RunL1(other, ToL1(es)).value);
      }
    }
  }

  // ---- The computed dictionary ----

  lemma {:induction false} TouchedIsEvent(es: seq<Event<L1VaultKey>>, key: L1VaultKey) returns (i: nat)
    requires Touched(es, key)
    ensures i < |es| && es[i].key == key && ToL1(es)[i].key == key.DictKey()
  {
    i :| 0 <= i < |es| && es[i].key == key;
  }

  /** The computed balances are in range and what the events need. */
  lemma {:induction false} MinimalInRange(some: L1Vaults, minBalance: L1Vaults, explicit: map<L1Key, L1VaultKey>,
                                          es: seq<Event<L1VaultKey>>)
    requires FeltEvents(ToL1(es)) && RunL1(some, ToL1(es)).Done? && KeysInRange(es)
    requires forall k :: k in some ==> -HALF <= some[k] <= HALF
    requires MinimalDictionary(minBalance, explicit, es)
    ensures forall k :: k in minBalance ==> 0 <= minBalance[k] <= HALF
    ensures forall i :: 0 <= i < |es| ==>
            ToL1(es)[i].key in minBalance && minBalance[ToL1(es)[i].key] == -MinPrefix(ToL1(es), ToL1(es)[i].key)
  {
    MinimalDictionaryExact(minBalance, explicit, es);
    RunL1Exact(some, ToL1(es));
    hide RunL1, MinPrefix, Sum, L1VaultKey.DictKey, Touched, MinimalDictionary;
    forall k | k in minBalance
      ensures 0 <= minBalance[k] <= HALF
    {
      var key := explicit[k];
      var i := TouchedIsEvent(es, key);
      SumsAgree(es, key);
      MinimalStart(ToL1(es), k, some[k]);
      MinPrefixIsLeast(ToL1(es), k);
      StartBound(some[k], ToL1(es), k);
    }
    forall i | 0 <= i < |es|
      ensures ToL1(es)[i].key in minBalance && minBalance[ToL1(es)[i].key] == -MinPrefix(ToL1(es), ToL1(es)[i].key)
    {
      EventIsTouched(es, i);
      SumsAgree(es, es[i].key);
    }
  }

  lemma {:induction false} EventIsTouched(es: seq<Event<L1VaultKey>>, i: nat)
    requires i < |es|
    ensures Touched(es, es[i].key)
  {
  }

  lemma {:induction false} StartBound(start: int, es: seq<Event<L1Key>>, k: L1Key)
    requires Feasible(start, es, k)
    ensures 0 <= start < BALANCE_BOUND
  {
    assert Sum(es[..0], k) == 0;
  }

  /** Every batch that is accepted from some L1 dictionary is accepted from the computed one. The rest
      of the ledger ends the same, every touched L1 vault ends at its minimal balance plus the sum of
      its changes, and its output record is accepted exactly if the vault index has 31 bits. The record
      then gives back the vault, its minimal balance and the sum. */
  lemma {:induction false} ComputedDictionaryRuns(s: Ledger, ctx: Context, txs: seq<Transaction>, minBalance: L1Vaults,
                                                  explicit: map<L1Key, L1VaultKey>)
    requires ExecuteBatch(s, ctx, txs).Done? && KeysInRange(BatchEvents(txs))
    requires forall k :: k in s.l1Vaults ==> -HALF <= s.l1Vaults[k] <= HALF
    requires MinimalDictionary(minBalance, explicit, BatchEvents(txs))
    ensures var r := ExecuteBatch(WithL1(s, minBalance), ctx, txs);
      && r.Done?
      && r.value == WithL1(ExecuteBatch(s, ctx, txs).value, r.value.l1Vaults)
      && r.value.l1Vaults.Keys == minBalance.Keys
      && forall key :: Touched(BatchEvents(txs), key) ==>
         ReportsSum(BatchEvents(txs), key, minBalance, r.value.l1Vaults)
  {
    hide ExecuteBatch, RunL1, MinimalDictionary, Sum, MinPrefix, L1VaultKey.DictKey;
    var es := BatchEvents(txs);
    BatchRunsEvents(s, ctx, txs);
    BatchEventsAreFelts(txs);
    MinimalInRange(s.l1Vaults, minBalance, explicit, es);
    MinimalStartSuffices(ToL1(es), s.l1Vaults, minBalance);
    BatchSwaps(s, ctx, txs, minBalance);
    RunL1Exact(minBalance, ToL1(es));
    var final := RunL1(minBalance, ToL1(es)).value;
    hide Touched, ReportsSum, AllFeasible;
    forall key | Touched(es, key)
      ensures ReportsSum(es, key, minBalance, final)
    {
      var i := TouchedIsEvent(es, key);
      EventKeyIsFelt(txs, i);
      VaultReportsSum(es, key, minBalance, final);
    }
  }

  lemma {:induction false} EventKeyIsFelt(txs: seq<Transaction>, i: nat)
    requires i < |BatchEvents(txs)|
    ensures -HALF <= BatchEvents(txs)[i].key.vaultIndex <= HALF
  {
    hide PartyEvents;
    var n := |TransactionEvents(txs[0])|;
    if i >= n {
      EventKeyIsFelt(txs[1..], i - n);
    } else if txs[0].Settlement? {
      PartyKeysAreFelts(txs[0].partyA, txs[0].partyASold, txs[0].partyBSold);
      PartyKeysAreFelts(txs[0].partyB, txs[0].partyBSold, txs[0].partyASold);
    }
  }

  lemma {:induction false} PartyKeysAreFelts(p: Party, sold: felt, bought: felt)
    ensures forall i :: 0 <= i < |PartyEvents(p, sold, bought)| ==>
            -HALF <= PartyEvents(p, sold, bought)[i].key.vaultIndex <= HALF
  {
  }

  /** What the squashed entry of a touched vault holds and what its record says. */
  ghost predicate ReportsSum(es: seq<Event<L1VaultKey>>, key: L1VaultKey, start: L1Vaults, final: L1Vaults) {
    var k := key.DictKey();
    && k in start && k in final
    && start[k] == -MinPrefix(es, key)
    && final[k] == start[k] + Sum(es, key)
    && (OutputL1Vault(key, start[k], final[k]).Done? <==> 0 <= key.vaultIndex < L1_VAULT_INDEX_BOUND)
    && (OutputL1Vault(key, start[k], final[k]).Done? ==>
          var o := OutputL1Vault(key, start[k], final[k]).value;
          && L1VaultKey(o.ethKey, o.tokenId, o.action / BALANCE_SHIFT / BALANCE_SHIFT) == key
          && o.action / BALANCE_SHIFT % BALANCE_SHIFT == -MinPrefix(es, key)
          && o.action % BALANCE_SHIFT - BALANCE_BOUND == Sum(es, key))
  }

  lemma {:induction false} VaultReportsSum(es: seq<Event<L1VaultKey>>, key: L1VaultKey, start: L1Vaults,
                                           final: L1Vaults)
    requires Touched(es, key) && KeysInRange(es) && -HALF <= key.vaultIndex <= HALF
    requires AllFeasible(start, ToL1(es)) && key.DictKey() in start && key.DictKey() in final
    requires start[key.DictKey()] == -MinPrefix(ToL1(es), key.DictKey())
    requires final[key.DictKey()] == start[key.DictKey()] + Sum(ToL1(es), key.DictKey())
    ensures ReportsSum(es, key, start, final)
  {
    var k := key.DictKey();
    hide L1VaultKey.DictKey;
    TouchedInRange(es, key);
    SumsAgree(es, key);
    var i := TouchedIsEvent(es, key);
    StartBound(start[k], ToL1(es), k);
    assert 0 <= start[k] + Sum(ToL1(es)[..|es|], k) < BALANCE_BOUND && ToL1(es)[..|es|] == ToL1(es);
    hide Sum, MinPrefix, Feasible, AllFeasible, OutputL1Vault, ToL1;
    RecordAccepted(key, start[k], final[k]);
    if OutputL1Vault(key, start[k], final[k]).Done? { OutputRoundTrip(key, start[k], final[k]); }
  }

  lemma {:induction false} RecordAccepted(key: L1VaultKey, minimalBalance: int, finalBalance: int)
    requires 0 <= minimalBalance < BALANCE_BOUND && 0 <= finalBalance < BALANCE_BOUND && -HALF <= key.vaultIndex <= HALF
    ensures OutputL1Vault(key, minimalBalance, finalBalance).Done? <==> 0 <= key.vaultIndex < L1_VAULT_INDEX_BOUND
  {
  }
}
