/** Minimal starting balances of L1 vaults: the fold of main_hint_functions.py over the batch, the
    dictionary updates of l1_vault_update.cairo that it is computed for, and the output record. */
module L1Minimal {
  import opened Felt
  import opened Options
  import opened Arithmetic
  import opened Dex

  const L1_VAULT_INDEX_BOUND: int := 0x80000000

  datatype L1VaultKey = L1VaultKey(ethKey: int, tokenId: int, vaultIndex: int) {
    /** The preimage of the key in the program's dictionary (get_l1_vault_hash_key). */
    function DictKey(): L1Key {
      KeyOfL1(ethKey, tokenId, vaultIndex)
    }

    /** to_hash_input. */
    function ToHashInput(): L1Key {
      L1Key(BitOr(vaultIndex * ETH_ADDRESS_SHIFT, ethKey), tokenId)
    }

    predicate InRange() {
      0 <= ethKey < ETH_ADDRESS_SHIFT
    }
  }

  /** The bitwise or of Python, on integers of any sign. */
  function BitOr(x: int, y: int): int
    decreases if x >= 0 then x else -x
  {
    if x == 0 then y
    else if x == -1 then -1
    else 2 * BitOr(x / 2, y / 2) + (if x % 2 == 1 || y % 2 == 1 then 1 else 0)
  }

  function PowerOfTwo(n: nat): nat {
    if n == 0 then 1 else 2 * PowerOfTwo(n - 1)
  }

  /** A number below a power of two is added by the or with a multiple of that power. */
  lemma {:induction false} BitOrAdds(x: int, n: nat, y: int)
    requires 0 <= y < PowerOfTwo(n)
    ensures BitOr(x * PowerOfTwo(n), y) == x * PowerOfTwo(n) + y
    decreases n
  {
    if n == 0 {
      BitOrZero(x);
    } else {
      var p := PowerOfTwo(n - 1);
      var high := x * p;
      assert x * PowerOfTwo(n) == 2 * high;
      BitOrAdds(x, n - 1, y / 2);
      if high != 0 { BitOrStep(high, y); }
    }
  }

  lemma {:induction false} BitOrStep(high: int, y: int)
    requires high != 0
    ensures BitOr(2 * high, y) == 2 * BitOr(high, y / 2) + y % 2
  {
  }

  lemma {:induction false} BitOrZero(x: int)
    ensures BitOr(x, 0) == x
    decreases if x >= 0 then x else -x
  {
    if x != 0 && x != -1 { BitOrZero(x / 2); }
  }

  /** For a 160-bit address the off-chain key and the program's key are the same. */
  lemma {:induction false} HashInputIsDictKey(key: L1VaultKey)
    requires key.InRange()
    ensures key.ToHashInput() == key.DictKey()
  {
    AddressShift();
    BitOrAdds(key.vaultIndex, 160, key.ethKey);
  }

  lemma {:induction false} PowerDoubles(n: nat)
    ensures PowerOfTwo(2 * n) == PowerOfTwo(n) * PowerOfTwo(n)
  {
    if n > 0 {
      PowerDoubles(n - 1);
      var p := PowerOfTwo(n - 1);
      assert PowerOfTwo(2 * n) == 2 * (2 * PowerOfTwo(2 * (n - 1)));
      assert (2 * p) * (2 * p) == 4 * (p * p);
    }
  }

  lemma {:induction false} AddressShift()
    ensures PowerOfTwo(160) == ETH_ADDRESS_SHIFT
  {
    assert PowerOfTwo(5) == 32;
    hide PowerOfTwo;
    PowerDoubles(5);
    assert PowerOfTwo(10) == 0x400;
    PowerDoubles(10);
    assert PowerOfTwo(20) == 0x100000;
    PowerDoubles(20);
    assert PowerOfTwo(40) == 0x10000000000;
    PowerDoubles(40);
    assert PowerOfTwo(80) == 0x100000000000000000000;
    PowerDoubles(80);
  }

  datatype L1VaultBalances = L1VaultBalances(minBalance: int, currentBalance: int)

  type BalanceMap = map<L1VaultKey, L1VaultBalances>

  datatype Event<+K> = Event(key: K, diff: int)

  // ---- Running sums of one vault ----

  function Sum<K(==)>(es: seq<Event<K>>, k: K): int {
    if es == [] then 0
    else Sum(es[..|es| - 1], k) + (if es[|es| - 1].key == k then es[|es| - 1].diff else 0)
  }

  /** The lowest balance a vault reaches that starts at 0. */
  function MinPrefix<K(==)>(es: seq<Event<K>>, k: K): int {
    if es == [] then 0
    else
      var before := MinPrefix(es[..|es| - 1], k);
      var now := Sum(es, k);
      if now < before then now else before
  }

  predicate Touched<K(==)>(es: seq<Event<K>>, k: K) {
    exists i :: 0 <= i < |es| && es[i].key == k
  }

  lemma {:induction false} PrefixOfPrefix<T>(s: seq<T>, i: nat, j: nat)
    requires i <= j <= |s|
    ensures s[..j][..i] == s[..i]
  {
  }

  /** MinPrefix is the least of the running sums, the initial 0 included. */
  lemma {:induction false} MinPrefixIsLeast<K>(es: seq<Event<K>>, k: K)
    ensures forall i :: 0 <= i <= |es| ==> MinPrefix(es, k) <= Sum(es[..i], k)
    ensures exists i :: 0 <= i <= |es| && MinPrefix(es, k) == Sum(es[..i], k)
    ensures MinPrefix(es, k) <= 0
    decreases |es|
  {
    var n := |es|;
    assert es[..n] == es;
    if n > 0 {
      var init := es[..n - 1];
      MinPrefixIsLeast(init, k);
      forall i | 0 <= i < n
        ensures MinPrefix(es, k) <= Sum(es[..i], k)
      {
        PrefixOfPrefix(es, i, n - 1);
      }
      if MinPrefix(es, k) != Sum(es[..n], k) {
        var i :| 0 <= i <= n - 1 && MinPrefix(init, k) == Sum(init[..i], k);
        PrefixOfPrefix(es, i, n - 1);
      }
    } else {
      assert es[..0] == es;
    }
  }

  /** A start under which every balance that a vault reaches is in range. */
  predicate Feasible<K(==)>(start: int, es: seq<Event<K>>, k: K) {
    forall i :: 0 <= i <= |es| ==> 0 <= start + Sum(es[..i], k) < BALANCE_BOUND
  }

  /** The negated minimum is the least feasible start: it keeps every balance non-negative, every
      start that does so is at least as large, and it is feasible as soon as some start is. */
  lemma {:induction false} MinimalStart<K>(es: seq<Event<K>>, k: K, start: int)
    ensures forall i :: 0 <= i <= |es| ==> 0 <= -MinPrefix(es, k) + Sum(es[..i], k)
    ensures (forall i :: 0 <= i <= |es| ==> 0 <= start + Sum(es[..i], k)) <==> -MinPrefix(es, k) <= start
    ensures Feasible(start, es, k) ==> Feasible(-MinPrefix(es, k), es, k)
  {
    MinPrefixIsLeast(es, k);
  }

  // ---- The dictionary updates of the program ----

  /** l1_vault_update_diff for each event in turn. */
  function RunL1(l1Vaults: L1Vaults, es: seq<Event<L1Key>>): Outcome<L1Vaults>
    decreases |es|
  {
    if es == [] then Done(l1Vaults)
    else
      var l1 :- UpdateL1Diff(l1Vaults, es[0].diff, es[0].key);
      RunL1(l1, es[1..])
  }

  lemma {:induction false} RunL1Concat(l1Vaults: L1Vaults, a: seq<Event<L1Key>>, b: seq<Event<L1Key>>)
    ensures RunL1(l1Vaults, a + b) ==
            if RunL1(l1Vaults, a).Done? then RunL1(RunL1(l1Vaults, a).value, b) else Abort
    decreases |a|
  {
    if a == [] {
      assert a + b == b;
    } else {
      assert (a + b)[0] == a[0] && (a + b)[1..] == a[1..] + b;
      var step := UpdateL1Diff(l1Vaults, a[0].diff, a[0].key);
      if step.Done? { RunL1Concat(step.value, a[1..], b); }
    }
  }

  predicate FeltEvents<K>(es: seq<Event<K>>) {
    forall i :: 0 <= i < |es| ==> -HALF <= es[i].diff <= HALF
  }

  /** Every touched vault is in the dictionary with a feasible start. */
  predicate AllFeasible(l1Vaults: L1Vaults, es: seq<Event<L1Key>>) {
    forall j :: 0 <= j < |es| ==> es[j].key in l1Vaults && Feasible(l1Vaults[es[j].key], es, es[j].key)
  }

  lemma {:induction false} L1DiffExact(l1Vaults: L1Vaults, diff: felt, key: L1Key)
    requires key in l1Vaults ==> -HALF <= l1Vaults[key] <= HALF
    ensures UpdateL1Diff(l1Vaults, diff, key).Done? <==>
            key in l1Vaults && 0 <= l1Vaults[key] < BALANCE_BOUND && 0 <= l1Vaults[key] + diff < BALANCE_BOUND
    ensures UpdateL1Diff(l1Vaults, diff, key).Done? ==>
            UpdateL1Diff(l1Vaults, diff, key).value == l1Vaults[key := l1Vaults[key] + diff]
  {
  }

  lemma {:induction false} FeasibleExtends<K>(start: int, es: seq<Event<K>>, e: Event<K>, k: K)
    ensures Feasible(start, es + [e], k) <==>
            Feasible(start, es, k) && 0 <= start + Sum(es, k) + (if e.key == k then e.diff else 0) < BALANCE_BOUND
    ensures Sum(es + [e], k) == Sum(es, k) + (if e.key == k then e.diff else 0)
  {
    var all := es + [e];
    assert all[..|all| - 1] == es && all[..|all|] == all && es[..|es|] == es;
    forall i | 0 <= i <= |es|
      ensures all[..i] == es[..i]
    {
    }
    if Feasible(start, all, k) {
      forall i | 0 <= i <= |es|
        ensures 0 <= start + Sum(es[..i], k) < BALANCE_BOUND
      {
        assert 0 <= start + Sum(all[..i], k) < BALANCE_BOUND;
      }
      assert 0 <= start + Sum(all[..|all|], k) < BALANCE_BOUND;
    }
  }

  lemma {:induction false} UntouchedSum<K>(es: seq<Event<K>>, k: K)
    requires !Touched(es, k)
    ensures Sum(es, k) == 0
    ensures forall i :: 0 <= i <= |es| ==> Sum(es[..i], k) == 0
    decreases |es|
  {
    var n := |es|;
    assert es[..n] == es;
    if n > 0 {
      var init := es[..n - 1];
      assert forall i :: 0 <= i < |init| ==> init[i] == es[i];
      assert !Touched(init, k);
      assert es[n - 1].key != k;
      UntouchedSum(init, k);
      forall i | 0 <= i < n
        ensures Sum(es[..i], k) == 0
      {
        PrefixOfPrefix(es, i, n - 1);
      }
    }
  }

  /** The dictionary updates succeed exactly when every touched vault starts feasibly, and then every
      vault ends at its start plus the sum of its differences. */
  lemma {:induction false} RunL1Exact(l1Vaults: L1Vaults, es: seq<Event<L1Key>>)
    requires FeltEvents(es)
    requires forall k :: k in l1Vaults ==> -HALF <= l1Vaults[k] <= HALF
    ensures RunL1(l1Vaults, es).Done? <==> AllFeasible(l1Vaults, es)
    ensures RunL1(l1Vaults, es).Done? ==>
              var r := RunL1(l1Vaults, es).value;
              && r.Keys == l1Vaults.Keys
              && (forall k :: k in l1Vaults ==> r[k] == l1Vaults[k] + Sum(es, k) && -HALF <= r[k] <= HALF)
    decreases |es|
  {
    hide UpdateL1Diff, Feasible, AllFeasible, Sum, RunL1;
    if es == [] {
      NothingRuns(l1Vaults);
    } else {
      var init, e := es[..|es| - 1], es[|es| - 1];
      assert es == init + [e];
      RunL1Exact(l1Vaults, init);
      RunL1Concat(l1Vaults, init, [e]);
      FeasibleStep(l1Vaults, init, e);
      if RunL1(l1Vaults, init).Done? {
        var mid := RunL1(l1Vaults, init).value;
        L1DiffExact(mid, e.diff, e.key);
        RunOne(mid, e);
        forall k
          ensures Sum(es, k) == Sum(init, k) + (if e.key == k then e.diff else 0)
        {
          FeasibleExtends(0, init, e, k);
        }
      }
    }
  }

  lemma {:induction false} NothingRuns(l1Vaults: L1Vaults)
    ensures RunL1(l1Vaults, []) == Done(l1Vaults) && AllFeasible(l1Vaults, [])
    ensures forall k: L1Key :: Sum([], k) == 0
  {
  }

  lemma {:induction false} RunOne(l1Vaults: L1Vaults, e: Event<L1Key>)
    ensures RunL1(l1Vaults, [e]) == UpdateL1Diff(l1Vaults, e.diff, e.key)
  {
    assert [e][1..] == [];
    var step := UpdateL1Diff(l1Vaults, e.diff, e.key);
    if step.Done? { assert RunL1(step.value, []) == Done(step.value); }
  }

  /** Feasibility of a longer run in terms of the shorter one and its last event. */
  lemma {:induction false} FeasibleStep(l1Vaults: L1Vaults, init: seq<Event<L1Key>>, e: Event<L1Key>)
    ensures AllFeasible(l1Vaults, init + [e]) <==>
            && AllFeasible(l1Vaults, init)
            && e.key in l1Vaults
            && 0 <= l1Vaults[e.key] + Sum(init, e.key) < BALANCE_BOUND
            && 0 <= l1Vaults[e.key] + Sum(init, e.key) + e.diff < BALANCE_BOUND
  {
    var es := init + [e];
    assert es[|init|] == e;
    assert forall j :: 0 <= j < |init| ==> es[j] == init[j];
    forall k | k in l1Vaults
      ensures Feasible(l1Vaults[k], es, k) <==>
              Feasible(l1Vaults[k], init, k) && 0 <= l1Vaults[k] + Sum(init, k)
                  + (if e.key == k then e.diff else 0) < BALANCE_BOUND
      ensures Feasible(l1Vaults[k], init, k) ==> 0 <= l1Vaults[k] + Sum(init, k) < BALANCE_BOUND
      ensures !Touched(init, k) && 0 <= l1Vaults[k] < BALANCE_BOUND ==> Feasible(l1Vaults[k], init, k)
      ensures !Touched(init, k) ==> Sum(init, k) == 0
    {
      FeasibleExtends(l1Vaults[k], init, e, k);
      assert init[..|init|] == init;
      if !Touched(init, k) { UntouchedSum(init, k); }
    }
    hide Feasible;
    if AllFeasible(l1Vaults, es) {
      assert es[|init|].key in l1Vaults;
      forall j | 0 <= j < |init|
        ensures init[j].key in l1Vaults && Feasible(l1Vaults[init[j].key], init, init[j].key)
      {
        assert es[j].key in l1Vaults;
      }
    }
    if AllFeasible(l1Vaults, init) && e.key in l1Vaults && 0 <= l1Vaults[e.key] + Sum(init, e.key) < BALANCE_BOUND
       && 0 <= l1Vaults[e.key] + Sum(init, e.key) + e.diff < BALANCE_BOUND
    {
      if Touched(init, e.key) {
        var j :| 0 <= j < |init| && init[j].key == e.key;
        assert Feasible(l1Vaults[init[j].key], init, init[j].key);
      }
      forall j | 0 <= j < |es|
        ensures es[j].key in l1Vaults && Feasible(l1Vaults[es[j].key], es, es[j].key)
      {
        if j < |init| && es[j].key != e.key {
          assert Feasible(l1Vaults[init[j].key], init, init[j].key);
          assert init[..|init|] == init;
        }
      }
    }
  }

  // ---- The events of a batch ----

  /** The key of the vault that an L1 order uses in a role. */
  datatype VaultRole = Sell | Buy | FeeSource

  /** L1VaultKey.from_order_l1. */
  function KeyOfRole(o: ExchangeOrder, role: VaultRole): L1VaultKey {
    match role
    case Sell => L1VaultKey(o.base.publicKey, o.assetIdSell, o.vaultSell)
    case Buy => L1VaultKey(o.base.publicKey, o.assetIdBuy, o.vaultBuy)
    case FeeSource => L1VaultKey(o.base.publicKey, o.assetIdFee, o.vaultFee)
  }

  /** The L1 vault changes of one party, in the order of the program: sell, buy, fee source. */
  function PartyEvents(p: Party, sold: int, bought: int): seq<Event<L1VaultKey>> {
    if !p.isL1 then []
    else
      [Event(KeyOfRole(p.order, Sell), -sold), Event(KeyOfRole(p.order, Buy), bought)]
      + (if p.fee.Some? then [Event(KeyOfRole(p.order, FeeSource), -p.fee.value.feeTaken)] else [])
  }

  /** Party A comes before party B. */
  function TransactionEvents(tx: Transaction): seq<Event<L1VaultKey>> {
    if tx.Settlement? then
      PartyEvents(tx.partyA, tx.partyASold, tx.partyBSold) + PartyEvents(tx.partyB, tx.partyBSold, tx.partyASold)
    else []
  }

  function BatchEvents(txs: seq<Transaction>): seq<Event<L1VaultKey>> {
    if txs == [] then [] else TransactionEvents(txs[0]) + BatchEvents(txs[1..])
  }

  /** The events under the keys of the L1 dictionary. */
  function ToL1(es: seq<Event<L1VaultKey>>): (r: seq<Event<L1Key>>)
    ensures |r| == |es|
    ensures forall i :: 0 <= i < |es| ==> r[i] == Event(es[i].key.DictKey(), es[i].diff)
  {
    if es == [] then [] else [Event(es[0].key.DictKey(), es[0].diff)] + ToL1(es[1..])
  }

  lemma {:induction false} ToL1Concat(a: seq<Event<L1VaultKey>>, b: seq<Event<L1VaultKey>>)
    ensures ToL1(a + b) == ToL1(a) + ToL1(b)
  {
  }

  /** Within 160-bit addresses the dictionary key determines the vault. */
  lemma {:induction false} HashInputInjective(a: L1VaultKey, b: L1VaultKey)
    requires a.InRange() && b.InRange()
    ensures a.DictKey() == b.DictKey() <==> a == b
  {
    if a.DictKey() == b.DictKey() {
      DigitsUnique(a.vaultIndex, a.ethKey, b.vaultIndex, b.ethKey, ETH_ADDRESS_SHIFT);
    }
  }

  predicate KeysInRange(es: seq<Event<L1VaultKey>>) {
    forall i :: 0 <= i < |es| ==> es[i].key.InRange()
  }

  lemma {:induction false} SumsAgree(es: seq<Event<L1VaultKey>>, key: L1VaultKey)
    requires KeysInRange(es) && key.InRange()
    ensures Sum(ToL1(es), key.DictKey()) == Sum(es, key)
    ensures MinPrefix(ToL1(es), key.DictKey()) == MinPrefix(es, key)
    decreases |es|
  {
    if es != [] {
      var init, e := es[..|es| - 1], es[|es| - 1];
      assert es == init + [e];
      ToL1Concat(init, [e]);
      assert ToL1(es)[..|es| - 1] == ToL1(init);
      SumsAgree(init, key);
      HashInputInjective(e.key, key);
    }
  }

  // ---- The batch makes exactly these updates ----

  lemma {:induction false} UserVaultRuns(s: Ledger, diff: int, o: ExchangeOrder, role: VaultRole, key: int,
                                         tokenId: int, vaultIndex: int)
    requires L1VaultKey(key, tokenId, vaultIndex) == KeyOfRole(o, role)
    requires UpdateUserVault(s, diff, key, tokenId, vaultIndex, true).Done?
    ensures RunL1(s.l1Vaults, ToL1([Event(KeyOfRole(o, role), diff)])) ==
            Done(UpdateUserVault(s, diff, key, tokenId, vaultIndex, true).value.l1Vaults)
  {
    hide UpdateL1Diff;
    var e := Event(KeyOfRole(o, role), diff);
    assert ToL1([e]) == [Event(e.key.DictKey(), diff)];
    RunOne(s.l1Vaults, Event(e.key.DictKey(), diff));
  }

  lemma {:induction false} L2KeepsL1(s: Ledger, diff: int, key: int, tokenId: int, vaultIndex: int)
    requires UpdateUserVault(s, diff, key, tokenId, vaultIndex, false).Done?
    ensures UpdateUserVault(s, diff, key, tokenId, vaultIndex, false).value.l1Vaults == s.l1Vaults
  {
    hide UpdateDiff;
  }

  lemma {:induction false} RunsCompose(a: L1Vaults, b: L1Vaults, c: L1Vaults, es: seq<Event<L1VaultKey>>,
                                       fs: seq<Event<L1VaultKey>>)
    requires RunL1(a, ToL1(es)) == Done(b) && RunL1(b, ToL1(fs)) == Done(c)
    ensures RunL1(a, ToL1(es + fs)) == Done(c)
  {
    ToL1Concat(es, fs);
    RunL1Concat(a, ToL1(es), ToL1(fs));
  }

  lemma {:induction false} OrderVaultsRun(s: Ledger, ctx: Context, o: ExchangeOrder, isL1: bool, sold: int,
                                          bought: int, hash: int)
    requires UpdateVaultsAndVerify(s, ctx, o, isL1, sold, bought, hash).Done?
    ensures var es := if isL1 then [Event(KeyOfRole(o, Sell), -sold), Event(KeyOfRole(o, Buy), bought)] else [];
      RunL1(s.l1Vaults, ToL1(es)) == Done(UpdateVaultsAndVerify(s, ctx, o, isL1, sold, bought, hash).value.l1Vaults)
  {
    hide UpdateUserVault, AddToSet;
    var s0 :=
      if isL1 then s.(l1Messages := AddToSet(s.l1Messages, L1OrderMessage(o.base.publicKey, FieldsOf(o))))
      else s;
    var s1 := UpdateUserVault(s0, -sold, o.base.publicKey, o.assetIdSell, o.vaultSell, isL1).value;
    var s2 := UpdateUserVault(s1, bought, o.base.publicKey, o.assetIdBuy, o.vaultBuy, isL1).value;
    if isL1 {
      UserVaultRuns(s0, -sold, o, Sell, o.base.publicKey, o.assetIdSell, o.vaultSell);
      UserVaultRuns(s1, bought, o, Buy, o.base.publicKey, o.assetIdBuy, o.vaultBuy);
      RunsCompose(s0.l1Vaults, s1.l1Vaults, s2.l1Vaults, [Event(KeyOfRole(o, Sell), -sold)],
                  [Event(KeyOfRole(o, Buy), bought)]);
      assert [Event(KeyOfRole(o, Sell), -sold)] + [Event(KeyOfRole(o, Buy), bought)]
          == [Event(KeyOfRole(o, Sell), -sold), Event(KeyOfRole(o, Buy), bought)];
    } else {
      L2KeepsL1(s0, -sold, o.base.publicKey, o.assetIdSell, o.vaultSell);
      L2KeepsL1(s1, bought, o.base.publicKey, o.assetIdBuy, o.vaultBuy);
    }
  }

  lemma {:induction false} OrderFeeRuns(s: Ledger, p: Party, bought: int)
    requires UpdateOrderFee(s, p.order, p.isL1, bought, p.fee).Done?
    ensures var es := if p.isL1 && p.fee.Some? then [Event(KeyOfRole(p.order, FeeSource), -p.fee.value.feeTaken)]
            else [];
      RunL1(s.l1Vaults, ToL1(es)) == Done(UpdateOrderFee(s, p.order, p.isL1, bought, p.fee).value.l1Vaults)
  {
    hide UpdateUserVault, OrderFeeOk;
    var o := p.order;
    if p.fee.Some? {
      var f := p.fee.value;
      var s1 := UpdateUserVault(s, -f.feeTaken, o.base.publicKey, o.assetIdFee, o.vaultFee, p.isL1).value;
      L2KeepsL1(s1, f.feeTaken, f.destinationStarkKey, o.assetIdFee, f.destinationVaultId);
      if p.isL1 {
        UserVaultRuns(s, -f.feeTaken, o, FeeSource, o.base.publicKey, o.assetIdFee, o.vaultFee);
      } else {
        L2KeepsL1(s, -f.feeTaken, o.base.publicKey, o.assetIdFee, o.vaultFee);
      }
    }
  }

  lemma {:induction false} PartyRuns(s: Ledger, ctx: Context, p: Party, sold: int, bought: int)
    requires ExecuteLimitOrder(s, ctx, p, sold, bought).Done?
    ensures RunL1(s.l1Vaults, ToL1(PartyEvents(p, sold, bought)))
            == Done(ExecuteLimitOrder(s, ctx, p, sold, bought).value.l1Vaults)
  {
    hide LimitOrderChecks, GetOrderHash, UpdateVaultsAndVerify, UpdateOrderFee, KeyOfRole, RunL1;
    var hash := GetOrderHash(ctx.pedersen, p.order, p.fee.Some?);
    var s0 := s.(orders := FulfillSell(s.orders, hash, sold, p.order.amountSell).value);
    var s1 := UpdateVaultsAndVerify(s0, ctx, p.order, p.isL1, sold, bought, hash).value;
    OrderVaultsRun(s0, ctx, p.order, p.isL1, sold, bought, hash);
    OrderFeeRuns(s1, p, bought);
    var es := if p.isL1 then [Event(KeyOfRole(p.order, Sell), -sold), Event(KeyOfRole(p.order, Buy), bought)] else [];
    var fs := if p.isL1 && p.fee.Some? then [Event(KeyOfRole(p.order, FeeSource), -p.fee.value.feeTaken)] else [];
    RunsCompose(s.l1Vaults, s1.l1Vaults, UpdateOrderFee(s1, p.order, p.isL1, bought, p.fee).value.l1Vaults, es, fs);
    assert es + fs == PartyEvents(p, sold, bought);
  }

  lemma {:induction false} TransactionRuns(s: Ledger, ctx: Context, tx: Transaction)
    requires ExecuteTransaction(s, ctx, tx).Done?
    ensures RunL1(s.l1Vaults, ToL1(TransactionEvents(tx))) == Done(ExecuteTransaction(s, ctx, tx).value.l1Vaults)
  {
    hide ExecuteLimitOrder, UpdateDiff, TransferFeeOk, TransferChecks, TransferMessage, SpendOnce, UpdateBalances,
      ActionWord, PartyEvents, IsNn;
    if tx.Settlement? {
      var s1 := ExecuteLimitOrder(s, ctx, tx.partyA, tx.partyASold, tx.partyBSold).value;
      PartyRuns(s, ctx, tx.partyA, tx.partyASold, tx.partyBSold);
      PartyRuns(s1, ctx, tx.partyB, tx.partyBSold, tx.partyASold);
      RunsCompose(s.l1Vaults, s1.l1Vaults, ExecuteTransaction(s, ctx, tx).value.l1Vaults,
                  PartyEvents(tx.partyA, tx.partyASold, tx.partyBSold),
                      PartyEvents(tx.partyB, tx.partyBSold, tx.partyASold));
    }
  }

  /** An accepted batch updates the L1 dictionary by its events, in order. */
  lemma {:induction false} BatchRunsEvents(s: Ledger, ctx: Context, txs: seq<Transaction>)
    requires ExecuteBatch(s, ctx, txs).Done?
    ensures RunL1(s.l1Vaults, ToL1(BatchEvents(txs))) == Done(ExecuteBatch(s, ctx, txs).value.l1Vaults)
    decreases |txs|
  {
    hide ExecuteTransaction, TransactionEvents;
    if txs != [] {
      var s1 := ExecuteTransaction(s, ctx, txs[0]).value;
      TransactionRuns(s, ctx, txs[0]);
      BatchRunsEvents(s1, ctx, txs[1..]);
      RunsCompose(s.l1Vaults, s1.l1Vaults, ExecuteBatch(s1, ctx, txs[1..]).value.l1Vaults, TransactionEvents(txs[0]),
                  BatchEvents(txs[1..]));
    }
  }

  /** In an accepted batch every touched L1 vault ends at its start plus the sum of its differences,
      and its start was at least the pre-computed minimum. */
  lemma {:induction false} BatchDiffs(s: Ledger, ctx: Context, txs: seq<Transaction>, key: L1VaultKey)
    requires ExecuteBatch(s, ctx, txs).Done?
    requires forall k :: k in s.l1Vaults ==> -HALF <= s.l1Vaults[k] <= HALF
    requires KeysInRange(BatchEvents(txs)) && Touched(BatchEvents(txs), key)
    ensures var start, t := s.l1Vaults, ExecuteBatch(s, ctx, txs).value.l1Vaults;
      var k := key.DictKey();
      && k in start && k in t
      && t[k] - start[k] == Sum(BatchEvents(txs), key)
      && -MinPrefix(BatchEvents(txs), key) <= start[k]
  {
    hide ExecuteBatch, RunL1;
    var es := BatchEvents(txs);
    var i :| 0 <= i < |es| && es[i].key == key;
    BatchRunsEvents(s, ctx, txs);
    BatchEventsAreFelts(txs);
    RunL1Exact(s.l1Vaults, ToL1(es));
    SumsAgree(es, key);
    assert ToL1(es)[i].key == key.DictKey();
    MinimalStart(ToL1(es), key.DictKey(), s.l1Vaults[key.DictKey()]);
  }

  lemma {:induction false} BatchEventsAreFelts(txs: seq<Transaction>)
    ensures FeltEvents(BatchEvents(txs)) && FeltEvents(ToL1(BatchEvents(txs)))
  {
    hide PartyEvents;
    if txs != [] {
      BatchEventsAreFelts(txs[1..]);
      if txs[0].Settlement? {
        PartyEventsAreFelts(txs[0].partyA, txs[0].partyASold, txs[0].partyBSold);
        PartyEventsAreFelts(txs[0].partyB, txs[0].partyBSold, txs[0].partyASold);
      }
    }
  }

  lemma {:induction false} PartyEventsAreFelts(p: Party, sold: felt, bought: felt)
    ensures FeltEvents(PartyEvents(p, sold, bought))
  {
  }

  /** Starting every L1 vault at its pre-computed minimum, the L1 updates of a batch succeed
      whenever they succeed from any start at all. */
  lemma {:induction false} MinimalStartSuffices(es: seq<Event<L1Key>>, some: L1Vaults, minimal: L1Vaults)
    requires FeltEvents(es) && RunL1(some, es).Done?
    requires forall k :: k in some ==> -HALF <= some[k] <= HALF
    requires forall k :: k in minimal ==> -HALF <= minimal[k] <= HALF
    requires forall i :: 0 <= i < |es| ==> es[i].key in minimal && minimal[es[i].key] == -MinPrefix(es, es[i].key)
    ensures RunL1(minimal, es).Done?
  {
    RunL1Exact(some, es);
    RunL1Exact(minimal, es);
    forall j | 0 <= j < |es|
      ensures Feasible(minimal[es[j].key], es, es[j].key)
    {
      MinimalStart(es, es[j].key, some[es[j].key]);
    }
  }

  // ---- The fold of main_hint_functions.py ----

  function BalanceOf(balances: BalanceMap, key: L1VaultKey): L1VaultBalances {
    if key in balances then balances[key] else L1VaultBalances(0, 0)
  }

  /** What the dictionary holds after a list of events: the lowest and the current running sum of
      every touched vault. */
  ghost predicate Tracks(balances: BalanceMap, es: seq<Event<L1VaultKey>>) {
    && (forall key :: key in balances <==> Touched(es, key))
    && forall key :: key in balances ==> balances[key] == L1VaultBalances(MinPrefix(es, key), Sum(es, key))
  }

  lemma {:induction false} TouchedAppend(es: seq<Event<L1VaultKey>>, e: Event<L1VaultKey>, key: L1VaultKey)
    ensures Touched(es + [e], key) <==> Touched(es, key) || e.key == key
  {
    if Touched(es, key) {
      var i :| 0 <= i < |es| && es[i].key == key;
      assert (es + [e])[i].key == key;
    }
    if e.key == key { assert (es + [e])[|es|].key == key; }
  }

  /** One more event. */
  lemma {:induction false} TracksStep(balances: BalanceMap, es: seq<Event<L1VaultKey>>, e: Event<L1VaultKey>)
    requires Tracks(balances, es)
    ensures var b := BalanceOf(balances, e.key);
      var now := b.currentBalance + e.diff;
      Tracks(balances[e.key := L1VaultBalances(if now < b.minBalance then now else b.minBalance, now)], es + [e])
  {
    var all := es + [e];
    assert all[..|all| - 1] == es;
    forall key
      ensures Touched(all, key) <==> Touched(es, key) || e.key == key
      ensures Sum(all, key) == Sum(es, key) + (if e.key == key then e.diff else 0)
      ensures !Touched(es, key) ==> Sum(es, key) == 0 && MinPrefix(es, key) == 0
      ensures MinPrefix(es, key) <= Sum(es, key)
    {
      TouchedAppend(es, e, key);
      MinPrefixIsLeast(es, key);
      assert es[..|es|] == es;
      if !Touched(es, key) { UntouchedSum(es, key); }
    }
  }

  /** The dictionary that update_order_vaults updates in place. */
  class BalanceUpdates {
    var balances: BalanceMap

    constructor ()
      ensures balances == map[]
    {
      balances := map[];
    }

    /** update_order_vaults. Every L1 order must carry a fee; the events seen so far are ghost. */
    method UpdateOrderVaults(p: Party, sold: int, bought: int, ghost seen: seq<Event<L1VaultKey>>) returns (ok: bool)
      requires p.isL1 && Tracks(balances, seen)
      modifies this
      ensures ok <==> p.fee.Some?
      ensures ok ==> Tracks(balances, seen + PartyEvents(p, sold, bought))
    {
      if p.fee.None? { return false; }
      var roles := [Sell, Buy, FeeSource];
      var diffs := [-sold, bought, -p.fee.value.feeTaken];
      ghost var events := PartyEvents(p, sold, bought);
      hide Tracks;
      assert seen + events[..0] == seen;
      var i := 0;
      while i < 3
        invariant 0 <= i <= 3
        invariant Tracks(balances, seen + events[..i])
      {
        var key := KeyOfRole(p.order, roles[i]);
        var b := BalanceOf(balances, key);
        var newBalance := b.currentBalance + diffs[i];
        var newMinBalance := if newBalance < b.minBalance then newBalance else b.minBalance;
        assert events[i] == Event(key, diffs[i]);
        TracksStep(balances, seen + events[..i], events[i]);
        assert seen + events[..i] + [events[i]] == seen + events[..i + 1];
        balances := balances[key := L1VaultBalances(newMinBalance, newBalance)];
        i := i + 1;
      }
      assert events[..3] == events;
      return true;
    }

    /** One party of a settlement: only L1 orders are tracked. */
    method UpdateParty(p: Party, sold: int, bought: int, ghost seen: seq<Event<L1VaultKey>>) returns (ok: bool)
      requires Tracks(balances, seen)
      modifies this
      ensures ok <==> p.isL1 ==> p.fee.Some?
      ensures ok ==> Tracks(balances, seen + PartyEvents(p, sold, bought))
    {
      if p.isL1 {
        ok := UpdateOrderVaults(p, sold, bought, seen);
      } else {
        assert seen + PartyEvents(p, sold, bought) == seen;
        ok := true;
      }
    }

    /** One round of the first loop of update_l1_vault_balances: both parties of a settlement. */
    method UpdateTransaction(tx: Transaction, ghost seen: seq<Event<L1VaultKey>>) returns (ok: bool)
      requires Tracks(balances, seen)
      modifies this
      ensures ok <==> L1OrdersHaveFees(tx)
      ensures ok ==> Tracks(balances, seen + TransactionEvents(tx))
    {
      hide Tracks, PartyEvents;
      if !tx.Settlement? {
        assert seen + TransactionEvents(tx) == seen;
        return true;
      }
      ok := UpdateParty(tx.partyA, tx.partyASold, tx.partyBSold, seen);
      if !ok { return; }
      ok := UpdateParty(tx.partyB, tx.partyBSold, tx.partyASold,
                        seen + PartyEvents(tx.partyA, tx.partyASold, tx.partyBSold));
      assert seen + PartyEvents(tx.partyA, tx.partyASold, tx.partyBSold)
             + PartyEvents(tx.partyB, tx.partyBSold, tx.partyASold)
          == seen + TransactionEvents(tx);
    }

    /** The first loop of update_l1_vault_balances. */
    method UpdateBatch(txs: seq<Transaction>) returns (ok: bool)
      requires balances == map[]
      modifies this
      ensures ok <==> forall i :: 0 <= i < |txs| ==> L1OrdersHaveFees(txs[i])
      ensures ok ==> Tracks(balances, BatchEvents(txs))
    {
      var i := 0;
      ghost var seen := [];
      assert txs[0..] == txs && seen + BatchEvents(txs) == BatchEvents(txs);
      assert Tracks(balances, seen);
      hide Tracks, TransactionEvents, L1OrdersHaveFees;
      while i < |txs|
        invariant 0 <= i <= |txs|
        invariant forall j :: 0 <= j < i ==> L1OrdersHaveFees(txs[j])
        invariant Tracks(balances, seen)
        invariant seen + BatchEvents(txs[i..]) == BatchEvents(txs)
      {
        BatchEventsStep(txs, i, seen);
        ok := UpdateTransaction(txs[i], seen);
        if !ok { return; }
        seen := seen + TransactionEvents(txs[i]);
        i := i + 1;
      }
      assert txs[i..] == [] && seen + [] == seen;
      return true;
    }
  }

  lemma {:induction false} BatchEventsStep(txs: seq<Transaction>, i: nat, seen: seq<Event<L1VaultKey>>)
    requires i < |txs|
    ensures seen + BatchEvents(txs[i..]) == seen + TransactionEvents(txs[i]) + BatchEvents(txs[i + 1..])
  {
    hide TransactionEvents;
    assert txs[i..][0] == txs[i] && txs[i..][1..] == txs[i + 1..];
  }

  /** The assertion that an L1 order carries a fee. */
  predicate L1OrdersHaveFees(tx: Transaction) {
    tx.Settlement? ==> (tx.partyA.isL1 ==> tx.partyA.fee.Some?) && (tx.partyB.isL1 ==> tx.partyB.fee.Some?)
  }

  /** The two dictionaries of update_l1_vault_balances: every touched vault has a key in them, and
      under every key stands one touched vault with that key and its minimal initial balance. */
  ghost predicate MinimalDictionary(minBalance: L1Vaults, explicit: map<L1Key, L1VaultKey>,
                                    es: seq<Event<L1VaultKey>>)
  {
    && minBalance.Keys == explicit.Keys
    && (forall key :: Touched(es, key) ==> key.ToHashInput() in explicit)
    && forall k :: k in explicit ==>
         && Touched(es, explicit[k]) && explicit[k].ToHashInput() == k
         && minBalance[k] == -MinPrefix(es, explicit[k])
  }

  /** update_l1_vault_balances. */
  method UpdateL1VaultBalances(txs: seq<Transaction>) returns (ok: bool, minBalance: L1Vaults, explicit: map<L1Key,
                                                               L1VaultKey>)
    ensures ok <==> forall i :: 0 <= i < |txs| ==> L1OrdersHaveFees(txs[i])
    ensures ok ==> MinimalDictionary(minBalance, explicit, BatchEvents(txs))
  {
    var updates := new BalanceUpdates();
    minBalance, explicit := map[], map[];
    ok := updates.UpdateBatch(txs);
    if !ok { return; }
    ghost var es := BatchEvents(txs);
    var balances := updates.balances;
    assert forall key :: Touched(es, key) <==> key in balances;
    assert forall key :: key in balances ==> balances[key].minBalance == MinPrefix(es, key);
    hide Tracks, Touched, MinPrefix, BatchEvents, L1OrdersHaveFees, L1VaultKey.ToHashInput;
    var remaining := balances.Keys;
    while remaining != {}
      invariant remaining <= balances.Keys
      invariant minBalance.Keys == explicit.Keys
      invariant forall key: L1VaultKey :: key in balances && key !in remaining ==> key.ToHashInput() in explicit
      invariant forall k :: k in explicit ==>
                  && explicit[k] in balances && explicit[k].ToHashInput() == k
                  && minBalance[k] == -balances[explicit[k]].minBalance
      decreases |remaining|
    {
      var vaultKey :| vaultKey in remaining;
      var hashKey := vaultKey.ToHashInput();
      explicit := explicit[hashKey := vaultKey];
      minBalance := minBalance[hashKey := -balances[vaultKey].minBalance];
      remaining := remaining - {vaultKey};
    }
  }

  /** With 160-bit addresses the dictionaries hold exactly the touched vaults under the program's keys. */
  lemma {:induction false} MinimalDictionaryExact(minBalance: L1Vaults, explicit: map<L1Key, L1VaultKey>,
                                                  es: seq<Event<L1VaultKey>>)
    requires MinimalDictionary(minBalance, explicit, es) && KeysInRange(es)
    ensures forall key: L1VaultKey :: Touched(es, key) ==>
              && key.DictKey() in minBalance && key.DictKey() in explicit
              && minBalance[key.DictKey()] == -MinPrefix(es, key)
              && explicit[key.DictKey()] == key
    ensures forall k :: k in minBalance ==> k in explicit && Touched(es, explicit[k]) && explicit[k].DictKey() == k
  {
    hide L1VaultKey.ToHashInput, L1VaultKey.DictKey, MinPrefix;
    forall key: L1VaultKey | Touched(es, key)
      ensures key.ToHashInput() == key.DictKey()
      ensures key.DictKey() in explicit && explicit[key.DictKey()] == key
    {
      TouchedInRange(es, key);
      HashInputIsDictKey(key);
      var other := explicit[key.ToHashInput()];
      TouchedInRange(es, other);
      HashInputIsDictKey(other);
      HashInputInjective(other, key);
    }
  }

  lemma {:induction false} TouchedInRange(es: seq<Event<L1VaultKey>>, key: L1VaultKey)
    requires KeysInRange(es) && Touched(es, key)
    ensures key.InRange()
  {
  }

  // ---- The output record ----

  datatype L1VaultOutput = L1VaultOutput(ethKey: int, tokenId: int, action: int)

  /** One entry of output_l1_vault_update_data, for the squashed entry of a vault. */
  function OutputL1Vault(key: L1VaultKey, minimalBalance: int, finalBalance: int): Outcome<L1VaultOutput> {
    var _ :- Require(IsNnLe(minimalBalance, BALANCE_BOUND - 1));
    var _ :- Require(IsNnLe(finalBalance, BALANCE_BOUND - 1));
    var _ :- Require(IsNnLe(key.vaultIndex, L1_VAULT_INDEX_BOUND - 1));
    Done(L1VaultOutput(key.ethKey, key.tokenId,
                       (key.vaultIndex * BALANCE_SHIFT + minimalBalance) * BALANCE_SHIFT
                           + (finalBalance - minimalBalance) + BALANCE_BOUND))
  }

  /** An entry of the squashed dictionary, with the explicit key that the prover supplies for it. */
  datatype SquashedEntry = SquashedEntry(key: L1Key, explicit: L1VaultKey, minimalBalance: int, finalBalance: int)

  /** output_l1_vault_update_data: one record for each entry; the explicit key must match. */
  method OutputL1VaultUpdateData(entries: seq<SquashedEntry>) returns (ok: bool, output: seq<L1VaultOutput>)
    ensures ok <==> forall i :: 0 <= i < |entries| ==>
              entries[i].explicit.DictKey() == entries[i].key
              && OutputL1Vault(entries[i].explicit, entries[i].minimalBalance, entries[i].finalBalance).Done?
    ensures ok ==> |output| == |entries| && forall i :: 0 <= i < |entries| ==>
              OutputL1Vault(entries[i].explicit, entries[i].minimalBalance, entries[i].finalBalance) == Done(output[i])
    decreases |entries|
  {
    hide OutputL1Vault;
    if entries == [] { return true, []; }
    var e := entries[0];
    var record := OutputL1Vault(e.explicit, e.minimalBalance, e.finalBalance);
    if record.Abort? || e.explicit.DictKey() != e.key { return false, []; }
    var rest;
    ok, rest := OutputL1VaultUpdateData(entries[1..]);
    output := [record.value] + rest;
    assert forall i :: 1 <= i < |entries| ==> entries[i] == entries[1..][i - 1];
    assert forall i :: 0 <= i < |entries| - 1 ==> entries[1..][i] == entries[i + 1];
  }

  /** A reader of the output recovers the vault, its minimal initial balance and its difference. */
  lemma {:induction false} OutputRoundTrip(key: L1VaultKey, minimalBalance: felt, finalBalance: felt)
    requires -HALF <= key.vaultIndex <= HALF && OutputL1Vault(key, minimalBalance, finalBalance).Done?
    ensures var o := OutputL1Vault(key, minimalBalance, finalBalance).value;
      && 0 <= o.action < P
      && L1VaultKey(o.ethKey, o.tokenId, o.action / BALANCE_SHIFT / BALANCE_SHIFT) == key
      && o.action / BALANCE_SHIFT % BALANCE_SHIFT == minimalBalance
      && o.action % BALANCE_SHIFT - BALANCE_BOUND == finalBalance - minimalBalance
  {
    var upper := key.vaultIndex * BALANCE_SHIFT + minimalBalance;
    var lower := finalBalance - minimalBalance + BALANCE_BOUND;
    assert OutputL1Vault(key, minimalBalance, finalBalance).value.action == upper * BALANCE_SHIFT + lower;
    Digits(upper, lower, BALANCE_SHIFT);
    Digits(key.vaultIndex, minimalBalance, BALANCE_SHIFT);
  }
}
