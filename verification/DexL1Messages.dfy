/** What an L1 order of the spot exchange leaves for the main contract (dex/execute_limit_order.cairo): it
    carries no signature, so its message in the output is all that authorises it. Over any batch the
    messages are exactly those of the L1 parties, and no L1 balance falls without one. */
module DexL1Messages {
  import opened Felt
  import opened Options
  import opened Dex
  import opened L1Minimal

  // ---- The set of messages ----

  function MessageOf(p: Party): L1OrderMessage {
    L1OrderMessage(p.order.base.publicKey, FieldsOf(p.order))
  }

  function PartyMessages(p: Party): seq<L1OrderMessage> {
    if p.isL1 then [MessageOf(p)] else []
  }

  function MessagesOf(tx: Transaction): seq<L1OrderMessage> {
    if tx.Settlement? then PartyMessages(tx.partyA) + PartyMessages(tx.partyB) else []
  }

  /** The messages of the L1 parties of a batch, in order. */
  function BatchMessages(txs: seq<Transaction>): seq<L1OrderMessage> {
    if txs == [] then [] else MessagesOf(txs[0]) + BatchMessages(txs[1..])
  }

  /** The messages at their first occurrence, without those that were there before. */
  function News(before: seq<L1OrderMessage>, ms: seq<L1OrderMessage>): seq<L1OrderMessage> {
    if ms == [] then []
    else
      var init, m := ms[..|ms| - 1], ms[|ms| - 1];
      News(before, init) + (if m in before || m in init then [] else [m])
  }

  predicate Distinct(ms: seq<L1OrderMessage>) {
    forall i, j :: 0 <= i < j < |ms| ==> ms[i] != ms[j]
  }

  /** Nothing is lost and nothing is written twice. */
  lemma {:induction false} NewsExact(before: seq<L1OrderMessage>, ms: seq<L1OrderMessage>)
    ensures forall m :: m in before + News(before, ms) <==> m in before || m in ms
    ensures Distinct(before) ==> Distinct(before + News(before, ms))
    decreases |ms|
  {
    if ms != [] {
      var init, m := ms[..|ms| - 1], ms[|ms| - 1];
      assert ms == init + [m];
      NewsExact(before, init);
      assert before + News(before, ms) == before + News(before, init) + (if m in before || m in init then [] else [m]);
    }
  }

  lemma {:induction false} NewsAppend(before: seq<L1OrderMessage>, ms: seq<L1OrderMessage>, m: L1OrderMessage)
    ensures before + News(before, ms + [m]) == AddToSet(before + News(before, ms), m)
  {
    assert (ms + [m])[..|ms|] == ms;
    NewsExact(before, ms);
  }

  /** First occurrences may be taken in two parts. */
  lemma {:induction false} NewsInTurn(before: seq<L1OrderMessage>, ms: seq<L1OrderMessage>, ns: seq<L1OrderMessage>)
    ensures before + News(before, ms + ns) == before + News(before, ms) + News(before + News(before, ms), ns)
    decreases |ns|
  {
    var mid := before + News(before, ms);
    if ns == [] {
      assert ms + ns == ms;
    } else {
      var init, n := ns[..|ns| - 1], ns[|ns| - 1];
      assert ns == init + [n] && ms + ns == ms + init + [n];
      NewsInTurn(before, ms, init);
      NewsAppend(before, ms + init, n);
      NewsAppend(mid, init, n);
    }
  }

  // ---- Transactions add their messages ----

  lemma {:induction false} UpdateKeepsMessages(s: Ledger, diff: int, key: int, tokenId: int, vault: int, onL1: bool)
    requires UpdateUserVault(s, diff, key, tokenId, vault, onL1).Done?
    ensures UpdateUserVault(s, diff, key, tokenId, vault, onL1).value.l1Messages == s.l1Messages
  {
    hide UpdateDiff, UpdateL1Diff;
  }

  lemma {:induction false} FeeKeepsMessages(s: Ledger, key: int, tokenId: int, source: int, fee: FeeInfo, fromL1: bool)
    requires UpdateFeeVaults(s, key, tokenId, source, fee, fromL1).Done?
    ensures UpdateFeeVaults(s, key, tokenId, source, fee, fromL1).value.l1Messages == s.l1Messages
  {
    hide UpdateUserVault;
    UpdateKeepsMessages(s, -fee.feeTaken, key, tokenId, source, fromL1);
    var s1 := UpdateUserVault(s, -fee.feeTaken, key, tokenId, source, fromL1).value;
    UpdateKeepsMessages(s1, fee.feeTaken, fee.destinationStarkKey, tokenId, fee.destinationVaultId, false);
  }

  /** An L1 order adds its message, an L2 order adds none. */
  lemma {:induction false} PartyAddsMessage(s: Ledger, ctx: Context, p: Party, sold: int, bought: int)
    requires ExecuteLimitOrder(s, ctx, p, sold, bought).Done?
    ensures ExecuteLimitOrder(s, ctx, p, sold, bought).value.l1Messages ==
            if p.isL1 then AddToSet(s.l1Messages, MessageOf(p)) else s.l1Messages
  {
    hide LimitOrderChecks, GetOrderHash, FulfillSell, UpdateUserVault, UpdateFeeVaults, OrderFeeOk, AddToSet;
    var o, hash := p.order, GetOrderHash(ctx.pedersen, p.order, p.fee.Some?);
    var orders := FulfillSell(s.orders, hash, sold, o.amountSell).value;
    var t := s.(orders := orders);
    var s0 := if p.isL1 then t.(l1Messages := AddToSet(t.l1Messages, MessageOf(p))) else t;
    UpdateKeepsMessages(s0, -sold, o.base.publicKey, o.assetIdSell, o.vaultSell, p.isL1);
    var s1 := UpdateUserVault(s0, -sold, o.base.publicKey, o.assetIdSell, o.vaultSell, p.isL1).value;
    UpdateKeepsMessages(s1, bought, o.base.publicKey, o.assetIdBuy, o.vaultBuy, p.isL1);
    var s2 := UpdateUserVault(s1, bought, o.base.publicKey, o.assetIdBuy, o.vaultBuy, p.isL1).value;
    if p.fee.Some? { FeeKeepsMessages(s2, o.base.publicKey, o.assetIdFee, o.vaultFee, p.fee.value, p.isL1); }
  }

  lemma {:induction false} PartyNews(before: seq<L1OrderMessage>, p: Party)
    ensures before + News(before, PartyMessages(p)) == if p.isL1 then AddToSet(before, MessageOf(p)) else before
  {
    assert [] + [MessageOf(p)] == [MessageOf(p)];
    NewsAppend(before, [], MessageOf(p));
    assert before + News(before, []) == before;
  }

  /** Every transaction adds exactly the messages of its L1 parties. */
  lemma {:induction false} TransactionAddsMessages(s: Ledger, ctx: Context, tx: Transaction)
    requires ExecuteTransaction(s, ctx, tx).Done?
    ensures ExecuteTransaction(s, ctx, tx).value.l1Messages == s.l1Messages + News(s.l1Messages, MessagesOf(tx))
  {
    hide ExecuteLimitOrder, UpdateUserVault, UpdateFeeVaults, UpdateBalances, TransferChecks, TransferMessage,
      SpendOnce, TransferFeeOk, ActionWord, IsNn, AddToSet;
    if tx.Settlement? {
      var s1 := ExecuteLimitOrder(s, ctx, tx.partyA, tx.partyASold, tx.partyBSold).value;
      PartyAddsMessage(s, ctx, tx.partyA, tx.partyASold, tx.partyBSold);
      PartyAddsMessage(s1, ctx, tx.partyB, tx.partyBSold, tx.partyASold);
      PartyNews(s.l1Messages, tx.partyA);
      PartyNews(s1.l1Messages, tx.partyB);
      NewsInTurn(s.l1Messages, PartyMessages(tx.partyA), PartyMessages(tx.partyB));
    } else {
      assert s.l1Messages + News(s.l1Messages, []) == s.l1Messages;
      if tx.Transfer? {
        TransferKeepsMessages(s, tx.transfer, tx.fee);
      } else if tx.Mint? {
        var orders :=
          if ctx.uniqueMinting then SpendOnce(s.orders, ctx.pedersen(MINT_TREE_INDEX_SALT, tx.tokenId), 1).value
          else s.orders;
        UpdateKeepsMessages(s.(orders := orders), 1, tx.starkKey, tx.tokenId, tx.vaultId, false);
      }
    }
  }

  lemma {:induction false} TransferKeepsMessages(s: Ledger, t: ExchangeTransfer, fee: Option<FeeInfo>)
    requires MoveTransfer(s, t, fee).Done?
    ensures MoveTransfer(s, t, fee).value.l1Messages == s.l1Messages
  {
    hide UpdateUserVault, UpdateFeeVaults, TransferFeeOk;
    UpdateKeepsMessages(s, -t.amount, t.base.publicKey, t.assetId, t.senderVaultId, false);
    var s1 := UpdateUserVault(s, -t.amount, t.base.publicKey, t.assetId, t.senderVaultId, false).value;
    UpdateKeepsMessages(s1, t.amount, t.receiverPublicKey, t.assetId, t.receiverVaultId, false);
    var s2 := UpdateUserVault(s1, t.amount, t.receiverPublicKey, t.assetId, t.receiverVaultId, false).value;
    if fee.Some? { FeeKeepsMessages(s2, t.base.publicKey, t.assetIdFee, t.srcFeeVaultId, fee.value, false); }
  }

  /** Over any accepted batch the messages in the output are those before it, followed, each once and in
      order, by exactly the messages of the batch's L1 parties. */
  lemma {:induction false} BatchAddsMessages(s: Ledger, ctx: Context, txs: seq<Transaction>)
    requires ExecuteBatch(s, ctx, txs).Done?
    ensures ExecuteBatch(s, ctx, txs).value.l1Messages == s.l1Messages + News(s.l1Messages, BatchMessages(txs))
    decreases |txs|
  {
    hide ExecuteTransaction, MessagesOf;
    if txs != [] {
      var s1 := ExecuteTransaction(s, ctx, txs[0]).value;
      TransactionAddsMessages(s, ctx, txs[0]);
      BatchAddsMessages(s1, ctx, txs[1..]);
      NewsInTurn(s.l1Messages, MessagesOf(txs[0]), BatchMessages(txs[1..]));
    }
  }

  // ---- No L1 balance falls without a message ----

  /** The message lets its key's order sell from the vault, or pay its fee from it. */
  predicate Names(m: L1OrderMessage, k: L1Key) {
    || KeyOfL1(m.ethKey, m.fields.assetIdSell, m.fields.vaultSell) == k
    || KeyOfL1(m.ethKey, m.fields.assetIdFee, m.fields.vaultFee) == k
  }

  predicate Takes(es: seq<Event<L1VaultKey>>, k: L1Key) {
    exists i :: 0 <= i < |es| && es[i].key.DictKey() == k && es[i].diff < 0
  }

  /** A balance that falls under a run of updates falls at one of them. */
  lemma {:induction false} FallsAtAnEvent(l1Vaults: L1Vaults, es: seq<Event<L1Key>>, k: L1Key)
    requires k in l1Vaults && RunL1(l1Vaults, es).Done?
    ensures k in RunL1(l1Vaults, es).value
    ensures RunL1(l1Vaults, es).value[k] < l1Vaults[k] ==> exists i :: 0 <= i < |es| && es[i].key == k && es[i].diff < 0
    decreases |es|
  {
    if es != [] {
      var step := UpdateL1Diff(l1Vaults, es[0].diff, es[0].key).value;
      FallsAtAnEvent(step, es[1..], k);
      if RunL1(step, es[1..]).value[k] < step[k] {
        var i :| 0 <= i < |es[1..]| && es[1..][i].key == k && es[1..][i].diff < 0;
        assert es[i + 1] == es[1..][i];
      }
    }
  }

  lemma {:induction false} PartyTakes(p: Party, sold: int, bought: int, k: L1Key)
    requires 0 <= bought && Takes(PartyEvents(p, sold, bought), k)
    ensures exists m :: m in PartyMessages(p) && Names(m, k)
  {
    assert MessageOf(p) in PartyMessages(p);
    assert Names(MessageOf(p), k);
  }

  lemma {:induction false} TakesConcat(es: seq<Event<L1VaultKey>>, fs: seq<Event<L1VaultKey>>, k: L1Key)
    requires Takes(es + fs, k)
    ensures Takes(es, k) || Takes(fs, k)
  {
    var all := es + fs;
    var i :| 0 <= i < |all| && all[i].key.DictKey() == k && all[i].diff < 0;
    if i < |es| { assert es[i] == all[i]; } else { assert fs[i - |es|] == all[i]; }
  }

  lemma {:induction false} BatchTakes(s: Ledger, ctx: Context, txs: seq<Transaction>, k: L1Key)
    requires ExecuteBatch(s, ctx, txs).Done? && Takes(BatchEvents(txs), k)
    ensures exists m :: m in BatchMessages(txs) && Names(m, k)
    decreases |txs|
  {
    hide ExecuteTransaction, TransactionEvents, MessagesOf, Names;
    TakesConcat(TransactionEvents(txs[0]), BatchEvents(txs[1..]), k);
    if Takes(TransactionEvents(txs[0]), k) {
      TransactionTakes(s, ctx, txs[0], k);
      var m :| m in MessagesOf(txs[0]) && Names(m, k);
      assert m in BatchMessages(txs);
    } else {
      BatchTakes(ExecuteTransaction(s, ctx, txs[0]).value, ctx, txs[1..], k);
      var m :| m in BatchMessages(txs[1..]) && Names(m, k);
      assert m in BatchMessages(txs);
    }
  }

  lemma {:induction false} TransactionTakes(s: Ledger, ctx: Context, tx: Transaction, k: L1Key)
    requires ExecuteTransaction(s, ctx, tx).Done? && Takes(TransactionEvents(tx), k)
    ensures exists m :: m in MessagesOf(tx) && Names(m, k)
  {
    hide ExecuteLimitOrder, PartyEvents, PartyMessages, Names;
    var es := PartyEvents(tx.partyA, tx.partyASold, tx.partyBSold);
    TakesConcat(es, PartyEvents(tx.partyB, tx.partyBSold, tx.partyASold), k);
    if Takes(es, k) {
      PartyTakes(tx.partyA, tx.partyASold, tx.partyBSold, k);
      var m :| m in PartyMessages(tx.partyA) && Names(m, k);
      assert m in MessagesOf(tx);
    } else {
      PartyTakes(tx.partyB, tx.partyBSold, tx.partyASold, k);
      var m :| m in PartyMessages(tx.partyB) && Names(m, k);
      assert m in MessagesOf(tx);
    }
  }

  /** Over any accepted batch an L1 balance falls only if the output holds a message of a party of the batch
      that names the vault under its own key. */
  lemma {:induction false} L1VaultIsGuarded(s: Ledger, ctx: Context, txs: seq<Transaction>, k: L1Key)
    requires ExecuteBatch(s, ctx, txs).Done? && k in s.l1Vaults
    ensures var t := ExecuteBatch(s, ctx, txs).value;
      && k in t.l1Vaults
      && (t.l1Vaults[k] < s.l1Vaults[k] ==>
            exists m :: m in BatchMessages(txs) && m in t.l1Messages && Names(m, k))
  {
    hide ExecuteBatch, Names;
    var t := ExecuteBatch(s, ctx, txs).value;
    var es := BatchEvents(txs);
    BatchRunsEvents(s, ctx, txs);
    FallsAtAnEvent(s.l1Vaults, ToL1(es), k);
    if t.l1Vaults[k] < s.l1Vaults[k] {
      var i :| 0 <= i < |ToL1(es)| && ToL1(es)[i].key == k && ToL1(es)[i].diff < 0;
      assert es[i].key.DictKey() == k;
      BatchTakes(s, ctx, txs, k);
      BatchAddsMessages(s, ctx, txs);
      NewsExact(s.l1Messages, BatchMessages(txs));
    }
  }
}
